/** The sliding-window limiter (api/auth.py, `RateLimitMiddleware.dispatch`).

    The deque of a bucket is compared with the full log of the bucket's accepted
    requests, which the program does not keep. */
module RateLimit {
  datatype Response = Pass | TooMany(retryAfter: int)

  ghost predicate Sorted(s: seq<real>) {
    forall i, j | 0 <= i < j < |s| :: s[i] <= s[j]
  }

  /** The number of entries below `x` at the front of a sorted list. */
  function Below(s: seq<real>, x: real): (r: nat)
    ensures r <= |s|
    ensures forall k | 0 <= k < r :: s[k] < x
    ensures r < |s| ==> s[r] >= x
  {
    if |s| == 0 || s[0] >= x then 0 else Below(s[1..], x) + 1
  }

  /** The verdict on a log: fewer than `limit` entries from the window's start on. */
  ghost predicate Accepts(log: seq<real>, now: real, limit: nat, window: real) {
    |log| - Below(log, now - window) < limit
  }

  /** Any `limit + 1` accepted requests in a row span more than the window. */
  ghost predicate Spaced(log: seq<real>, limit: nat, window: real) {
    forall i | 0 <= i && i + limit < |log| :: log[i + limit] - log[i] > window
  }

  /** An accepted request keeps them so. */
  lemma AcceptKeepsSpaced(log: seq<real>, now: real, limit: nat, window: real)
    requires limit > 0 && window >= 0.0
    requires Sorted(log) && (forall t | t in log :: t <= now)
    requires Spaced(log, limit, window) && Accepts(log, now, limit, window)
    ensures Sorted(log + [now]) && Spaced(log + [now], limit, window)
  {
    var next := log + [now];
    assert forall k | 0 <= k < |log| :: log[k] in log;
    forall i | 0 <= i && i + limit < |next| ensures next[i + limit] - next[i] > window {
      if i + limit == |log| {
        assert i < Below(log, now - window);
      }
    }
  }

  /** The accepted requests in the closed window [a, b]. */
  ghost function Within(log: seq<real>, a: real, b: real): set<nat> {
    set k: nat | k < |log| && a <= log[k] <= b
  }

  lemma {:induction false} FewIndices(s: set<nat>, lo: nat, m: nat)
    requires forall k | k in s :: lo <= k < lo + m
    ensures |s| <= m
  {
    if m == 0 {
      assert s == {};
    } else {
      FewIndices(s - {lo + m - 1}, lo, m - 1);
      assert s <= (s - {lo + m - 1}) + {lo + m - 1};
    }
  }

  /** Spacing is the bound: no closed window of the given length holds more than `limit`. */
  lemma SpacedBound(log: seq<real>, limit: nat, window: real, a: real)
    requires Sorted(log) && Spaced(log, limit, window) && limit > 0 && window >= 0.0
    ensures |Within(log, a, a + window)| <= limit
  {
    var inside := Within(log, a, a + window);
    var lo := Below(log, a);
    if lo + limit < |log| {
      assert log[lo + limit] - log[lo] > window;
      assert forall k | lo + limit <= k < |log| :: log[k] > a + window;
    }
    FewIndices(inside, lo, limit);
  }

  /** The verdict is exact: a request is accepted while, and only while, fewer than `limit`
      accepted ones lie in the closed window that ends now. */
  lemma AcceptsMeans(log: seq<real>, now: real, limit: nat, window: real)
    requires Sorted(log) && forall k | 0 <= k < |log| :: log[k] <= now
    ensures Accepts(log, now, limit, window) <==> |Within(log, now - window, now)| < limit
  {
    WindowIsTail(log, now, window);
  }

  lemma WindowIsTail(log: seq<real>, now: real, window: real)
    requires Sorted(log) && forall k | 0 <= k < |log| :: log[k] <= now
    ensures |Within(log, now - window, now)| == |log| - Below(log, now - window)
  {
    var lo := Below(log, now - window);
    var tail := Interval(lo, |log|);
    forall k: nat ensures k in Within(log, now - window, now) <==> k in tail {
      if k < |log| && lo <= k {
        assert log[lo] <= log[k];
      }
    }
    assert Within(log, now - window, now) == tail;
  }

  ghost function Interval(lo: nat, hi: nat): (r: set<nat>)
    requires lo <= hi
    ensures forall k: nat :: k in r <==> lo <= k < hi
    ensures |r| == hi - lo
  {
    if lo == hi then {} else Interval(lo, hi - 1) + {hi - 1}
  }

  /** `max(1, int(rest))` for a rest that is not negative. */
  function RetryAfter(rest: real): (r: int)
    ensures r >= 1
  {
    if rest.Floor < 1 then 1 else rest.Floor
  }

  /** Waiting the advised whole seconds frees the oldest entry exactly when less than one
      second was left: the advice rounds down. */
  lemma RetryAdviceSuffices(oldest: real, now: real, window: real)
    requires now - window <= oldest <= now
    ensures oldest < now + RetryAfter(window - (now - oldest)) as real - window
       <==> window - (now - oldest) < 1.0
  {
  }

  /** What a bucket's deque keeps of its full log: the last entries, and every entry
      that may still lie in a window ending at or after `clock`. The log itself is spaced. */
  ghost predicate BucketOk(deque: seq<real>, log: seq<real>, clock: real, limit: int, window: real) {
    && limit > 0 && Sorted(log) && Spaced(log, limit, window) && (forall t | t in log :: t <= clock)
    && |deque| <= limit && |deque| <= |log|
    && deque == log[|log| - |deque|..]
    && forall k | 0 <= k < |log| - |deque| :: log[k] < clock - window
  }

  lemma {:induction false} FrontIs(s: seq<real>, r: nat, x: real)
    requires r <= |s|
    requires forall k | 0 <= k < r :: s[k] < x
    requires r < |s| ==> s[r] >= x
    ensures Below(s, x) == r
  {
  }

  /** `while bucket and bucket[0] < window_start: bucket.popleft()`. */
  method Evict(bucket: seq<real>, windowStart: real) returns (rest: seq<real>)
    ensures rest == bucket[Below(bucket, windowStart)..]
  {
    rest := bucket;
    ghost var n := 0;
    while |rest| > 0 && rest[0] < windowStart
      invariant n <= |bucket| && rest == bucket[n..]
      invariant forall k | 0 <= k < n :: bucket[k] < windowStart
    {
      rest := rest[1..];
      n := n + 1;
    }
    FrontIs(bucket, n, windowStart);
  }

  lemma {:induction false} EvictedFront(deque: seq<real>, log: seq<real>, d: nat, x: real)
    requires d <= |log| && deque == log[d..]
    requires forall k | 0 <= k < d :: log[k] < x
    ensures Below(log, x) == d + Below(deque, x)
    ensures deque[Below(deque, x)..] == log[Below(log, x)..]
  {
    var r := Below(deque, x);
    assert forall k | d <= k < d + r :: log[k] == deque[k - d];
    FrontIs(log, d + r, x);
  }

  lemma TailIsBucket(log: seq<real>, now: real, limit: int, window: real, r: nat)
    requires limit > 0 && Sorted(log) && Spaced(log, limit, window) && (forall t | t in log :: t <= now)
    requires r <= |log| && |log| - r <= limit
    requires forall k | 0 <= k < r :: log[k] < now - window
    ensures BucketOk(log[r..], log, now, limit, window)
  {
    hide Sorted, Spaced;
  }

  /** Eviction leaves exactly the logged entries of the window that ends now. */
  lemma {:induction false} EvictedBucket(deque: seq<real>, log: seq<real>, clock: real, limit: int,
          window: real, now: real)
    requires BucketOk(deque, log, clock, limit, window) && clock <= now && limit > 0
    ensures var rest := deque[Below(deque, now - window)..];
            && BucketOk(rest, log, now, limit, window)
            && (|rest| < limit <==> Accepts(log, now, limit, window))
            && (|rest| > 0 ==> now - window <= rest[0] <= now)
            && rest == log[Below(log, now - window)..]
  {
    hide Below, Sorted, Spaced;
    EvictedFront(deque, log, |log| - |deque|, now - window);
    var r := Below(log, now - window);
    TailIsBucket(log, now, limit, window, r);
    hide BucketOk;
    assert log[r..] == deque[Below(deque, now - window)..];
    if r < |log| {
      assert log[r] in log;
    }
  }

  lemma AcceptedBucket(deque: seq<real>, log: seq<real>, now: real, limit: int, window: real)
    requires BucketOk(deque, log, now, limit, window) && |deque| < limit && window >= 0.0
    requires Accepts(log, now, limit, window)
    ensures BucketOk(deque + [now], log + [now], now, limit, window)
  {
    AcceptKeepsSpaced(log, now, limit, window);
    hide Sorted, Spaced;
    assert forall k | 0 <= k < |log| :: log[k] in log;
  }

  /** What the limiter answers from the log of a bucket. */
  lemma VerdictMeans(deque: seq<real>, log: seq<real>, now: real, limit: int, window: real)
    requires BucketOk(deque, log, now, limit, window)
    ensures Accepts(log, now, limit, window) <==> |Within(log, now - window, now)| < limit
  {
    assert forall k | 0 <= k < |log| :: log[k] in log;
    hide Sorted, Spaced;
    AcceptsMeans(log, now, limit, window);
  }

  lemma OldestAdvises(log: seq<real>, now: real, window: real)
    requires Below(log, now - window) < |log|
    ensures Advises(TooMany(RetryAfter(window - (now - log[Below(log, now - window)]))), log, now, window)
  {
  }

  ghost predicate AllOk(hits: map<string, seq<real>>, log: map<string, seq<real>>,
                        clock: real, limit: int, window: real)
  {
    hits.Keys == log.Keys
    && forall bucket | bucket in hits :: BucketOk(hits[bucket], log[bucket], clock, limit, window)
  }

  lemma ClockMoves(hits: map<string, seq<real>>, log: map<string, seq<real>>, clock: real, limit: int,
                   window: real, now: real)
    requires AllOk(hits, log, clock, limit, window) && clock <= now
    ensures AllOk(hits, log, now, limit, window)
  {
    hide Sorted, Spaced;
  }

  lemma OneBucket(hits: map<string, seq<real>>, log: map<string, seq<real>>, clock: real, limit: int, window: real,
                  bucket: string, deque: seq<real>, entries: seq<real>)
    requires AllOk(hits, log, clock, limit, window) && BucketOk(deque, entries, clock, limit, window)
    ensures AllOk(hits[bucket := deque], log[bucket := entries], clock, limit, window)
  {
    hide BucketOk;
  }

  lemma FreshBucket(clock: real, limit: int, window: real)
    ensures limit > 0 ==> BucketOk([], [], clock, limit, window)
  {
  }

  /** The advice of a refusal: the whole seconds, at least one, until the oldest accepted request
      of the window leaves it. */
  ghost predicate Advises(r: Response, log: seq<real>, now: real, window: real) {
    r.TooMany? ==>
      exists k :: 0 <= k < |log| && log[k] >= now - window && (forall j | 0 <= j < k :: log[j] < now - window)
        && var rest := (window - (now - log[k])).Floor;
           r.retryAfter == if rest < 1 then 1 else rest
  }

  ghost function Logged(log: seq<real>, r: Response, now: real): seq<real> {
    if r == Pass then log + [now] else log
  }

  class Limiter {
    const limit: int
    const window: nat
    const enabled: bool
    var hits: map<string, seq<real>>
    ghost var log: map<string, seq<real>>
    ghost var clock: real

    ghost predicate Valid()
      reads this
    {
      AllOk(hits, log, clock, limit, window as real)
    }

    constructor (limit: int, window: nat, enabled: bool, ghost start: real)
      ensures Valid() && hits == map[] && log == map[] && clock == start
      ensures this.limit == limit && this.window == window && this.enabled == enabled
    {
      this.limit, this.window, this.enabled := limit, window, enabled;
      hits, log, clock := map[], map[], start;
    }

    ghost function LogFor(bucket: string): seq<real>
      reads this
    {
      if bucket in log then log[bucket] else []
    }

    /** The bound of the limiter, in every state it can reach: no closed window of the
        window's length holds more than `limit` accepted requests of a bucket. */
    lemma WindowBound(bucket: string, a: real)
      requires Valid() && limit > 0
      ensures |Within(LogFor(bucket), a, a + window as real)| <= limit
    {
      hide AllOk, Sorted, Spaced, Within;
      BucketIn(bucket);
      SpacedBound(LogFor(bucket), limit, window as real, a);
    }

    /** A request that counts. It passes exactly when fewer than `limit` accepted requests of
        its bucket lie in the closed window that ends now, and it changes its bucket's log
        alone. */
    method Admit(bucket: string, now: real) returns (r: Response)
      requires Valid() && clock <= now && limit > 0
      modifies this
      ensures Valid() && clock == now
      ensures r == Pass <==> |Within(old(LogFor(bucket)), now - window as real, now)| < limit
      ensures log == old(log)[bucket := Logged(old(LogFor(bucket)), r, now)]
      ensures Advises(r, old(LogFor(bucket)), now, window as real)
    {
      BucketIn(bucket);
      ClockMoves(hits, log, clock, limit, window as real, now);
      hide BucketOk, AllOk, Within, Advises;
      ghost var entries := LogFor(bucket);
      var deque: seq<real>;
      r, deque := Decide(if bucket in hits then hits[bucket] else [], now, entries, clock);
      entries := Logged(entries, r, now);
      OneBucket(hits, log, now, limit, window as real, bucket, deque, entries);
      clock := now;
      hits := hits[bucket := deque];
      log := log[bucket := entries];
    }

    /** The bucket's own part: evict, compare, append. */
    method Decide(bucket: seq<real>, now: real, ghost entries: seq<real>, ghost before: real)
      returns (r: Response, deque: seq<real>)
      requires limit > 0 && before <= now
      requires BucketOk(bucket, entries, before, limit, window as real)
      ensures r == Pass <==> |Within(entries, now - window as real, now)| < limit
      ensures BucketOk(deque, Logged(entries, r, now), now, limit, window as real)
      ensures Advises(r, entries, now, window as real)
    {
      hide BucketOk, Below, Accepts, Within, RetryAfter;
      EvictedBucket(bucket, entries, before, limit, window as real, now);
      VerdictMeans(bucket[Below(bucket, now - window as real)..], entries, now, limit, window as real);
      deque := Evict(bucket, now - window as real);
      if |deque| >= limit {
        r := TooMany(RetryAfter(window as real - (now - deque[0])));
        OldestAdvises(entries, now, window as real);
      } else {
        AcceptedBucket(deque, entries, now, limit, window as real);
        deque := deque + [now];
        r := Pass;
      }
    }

    /** One request: exempt paths and a limiter that is off pass and count nothing. */
    method Dispatch(exempt: bool, bucket: string, now: real) returns (r: Response)
      requires Valid() && clock <= now
      modifies this
      ensures Valid() && clock == now
      ensures if !enabled || limit <= 0 || exempt then r == Pass && log == old(log) && hits == old(hits)
              else && (r == Pass <==> |Within(old(LogFor(bucket)), now - window as real, now)| < limit)
                   && log == old(log)[bucket := Logged(old(LogFor(bucket)), r, now)]
                   && Advises(r, old(LogFor(bucket)), now, window as real)
    {
      ClockMoves(hits, log, clock, limit, window as real, now);
      if !enabled || limit <= 0 || exempt {
        clock := now;
        return Pass;
      }
      r := Admit(bucket, now);
    }

    lemma BucketIn(bucket: string)
      requires Valid() && limit > 0
      ensures BucketOk(if bucket in hits then hits[bucket] else [], LogFor(bucket), clock, limit, window as real)
    {
      FreshBucket(clock, limit, window as real);
    }
  }
}
