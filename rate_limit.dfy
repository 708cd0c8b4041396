/**
 * The fixed-window rate limiter of src/lib/rate-limit.ts.
 *
 * Time is cut into windows of `windowMs` milliseconds aligned to multiples of
 * `windowMs`; a cache maps the key `<keyPrefix>:<windowStart>` to the number
 * of hits recorded in that window. `RecordRateLimit` increments the current
 * window's count, `CheckRateLimit` only reads it and decides admission, and the
 * result's `Retry` waits until the window resets and checks again.
 *
 * The module-level `Map` becomes a `RateLimitCache` object. `Date.now()` is a
 * clock reading passed in as `now`, and the clock readings a retry chain makes
 * are a finite sequence of `Tick` observations, so that a chain that would run
 * for ever is cut off as `Pending` when the observations run out.
 */
module RateLimit {
  import opened Common
  import Decimal

  /** The key prefix used when the configuration gives none. */
  const DefaultKeyPrefix: string := "rate-limit"

  /** The retry ceiling used when the configuration gives none. */
  const DefaultMaxRetries: int := 3

  /** `RateLimitConfig` as a caller writes it: `keyPrefix` and `maxRetries` may be left out. */
  datatype RateLimitConfig = RateLimitConfig(
    keyPrefix: Option<string>,
    maxRequests: int,
    windowMs: int,
    maxRetries: Option<int>)

  /** The configuration after the destructuring defaults have been applied. */
  datatype Settings = Settings(keyPrefix: string, maxRequests: int, windowMs: int, maxRetries: int)
  {
    /** The configuration object the retry passes to its re-check: every field given explicitly. */
    function AsConfig(): (c: RateLimitConfig)
      ensures Resolve(c) == this
    {
      RateLimitConfig(Some(keyPrefix), maxRequests, windowMs, Some(maxRetries))
    }
  }

  /** Applies the defaults `keyPrefix = 'rate-limit'` and `maxRetries = 3` to the fields left out. */
  function Resolve(c: RateLimitConfig): (s: Settings)
    ensures s.maxRequests == c.maxRequests && s.windowMs == c.windowMs
    ensures c.keyPrefix.Some? ==> s.keyPrefix == c.keyPrefix.value
    ensures c.maxRetries.Some? ==> s.maxRetries == c.maxRetries.value
  {
    Settings(
      match c.keyPrefix case Some(p) => p case None => DefaultKeyPrefix,
      c.maxRequests,
      c.windowMs,
      match c.maxRetries case Some(n) => n case None => DefaultMaxRetries)
  }

  /** A configuration that leaves out the optional fields gets prefix "rate-limit" and ceiling 3. */
  lemma DefaultsApplied(maxRequests: int, windowMs: int)
    ensures Resolve(RateLimitConfig(None, maxRequests, windowMs, None))
         == Settings("rate-limit", maxRequests, windowMs, 3)
  {
  }

  // ---------------------------------------------------------------------------
  // Window arithmetic
  // ---------------------------------------------------------------------------

  /**
   * `Math.floor(now / windowMs) * windowMs`: the aligned start of the window
   * holding `now`. It is a multiple of `windowMs` and `now` lies in
   * `[start, start + windowMs)`.
   */
  function WindowStart(now: nat, windowMs: int): (start: nat)
    requires windowMs > 0
    ensures start % windowMs == 0
    ensures start <= now < start + windowMs
  {
    MultipleMod(now / windowMs, windowMs);
    (now / windowMs) * windowMs
  }

  /** A multiple of `w` leaves remainder 0 and gives back its factor. */
  lemma MultipleMod(q: int, w: int)
    requires w > 0
    ensures (q * w) % w == 0 && (q * w) / w == q
  {
    DivModUnique(q * w, w, q, 0);
  }

  lemma MulAtLeastOnce(k: int, w: int)
    requires k >= 1 && w > 0
    ensures k * w >= w
  {
    assert k * w == (k - 1) * w + w;
    assert (k - 1) * w >= 0;
  }

  /** Euclidean division is unique: a quotient and remainder in range are the ones `/` and `%` give. */
  lemma DivModUnique(a: int, w: int, q: int, r: int)
    requires w > 0 && 0 <= r < w && a == q * w + r
    ensures a / w == q && a % w == r
  {
    var q', r' := a / w, a % w;
    assert a == q' * w + r';
    if q' > q {
      assert (q' - q) * w == q' * w - q * w;
      MulAtLeastOnce(q' - q, w);
    } else if q' < q {
      assert (q - q') * w == q * w - q' * w;
      MulAtLeastOnce(q - q', w);
    }
  }

  /** The next window starts where the current one ends, on a multiple of `windowMs`. */
  lemma NextWindowAligned(start: nat, w: int)
    requires w > 0 && start % w == 0
    ensures (start + w) % w == 0
  {
    var q := start / w;
    assert start == q * w;
    assert start + w == (q + 1) * w;
    MultipleMod(q + 1, w);
  }

  /** The window start is the only multiple of `windowMs` in `(now - windowMs, now]`. */
  lemma {:induction false} WindowStartUnique(now: nat, windowMs: int, start: nat)
    requires windowMs > 0
    requires start % windowMs == 0 && start <= now < start + windowMs
    ensures start == WindowStart(now, windowMs)
  {
    var q := start / windowMs;
    assert start == q * windowMs;
    DivModUnique(now, windowMs, q, now - start);
  }

  /** Two instants in the same window have the same window start, hence the same reset time. */
  lemma SameWindow(t1: nat, t2: nat, windowMs: int)
    requires windowMs > 0
    requires WindowStart(t1, windowMs) <= t2 < WindowStart(t1, windowMs) + windowMs
    ensures WindowStart(t2, windowMs) == WindowStart(t1, windowMs)
  {
    WindowStartUnique(t2, windowMs, WindowStart(t1, windowMs));
  }

  /** Window starts never go back in time: a later instant lies in the same or a later window. */
  lemma WindowStartMonotone(t1: nat, t2: nat, windowMs: int)
    requires windowMs > 0 && t1 <= t2
    ensures WindowStart(t1, windowMs) <= WindowStart(t2, windowMs)
  {
    var s1, s2 := WindowStart(t1, windowMs), WindowStart(t2, windowMs);
    if s2 < s1 {
      var q1, q2 := s1 / windowMs, s2 / windowMs;
      assert s1 == q1 * windowMs && s2 == q2 * windowMs;
      assert (q1 - q2) * windowMs == s1 - s2;
      if q1 - q2 < 1 {
        assert false;
      }
      MulAtLeastOnce(q1 - q2, windowMs);
    }
  }

  // ---------------------------------------------------------------------------
  // Cache keys
  // ---------------------------------------------------------------------------

  /**
   * The template literal `${keyPrefix}:${windowStart}`: the prefix, a colon,
   * then digits that read back as the window start.
   */
  function KeyOf(keyPrefix: string, windowStart: nat): (key: string)
    ensures |key| > |keyPrefix| + 1 && key[..|keyPrefix|] == keyPrefix && key[|keyPrefix|] == ':'
    ensures forall i :: |keyPrefix| < i < |key| ==> Decimal.IsDigit(key[i])
    ensures Decimal.Parse(key[|keyPrefix| + 1..]) == windowStart
  {
    var digits := Decimal.Show(windowStart);
    var key := keyPrefix + ":" + digits;
    assert key[|keyPrefix| + 1..] == digits;
    assert forall i :: |keyPrefix| < i < |key| ==> key[i] == digits[i - |keyPrefix| - 1];
    Decimal.ParseShow(windowStart);
    key
  }

  /**
   * The key of the window holding `now`, shared by the record and the check:
   * the digits after the prefix name the multiple of `windowMs` whose window
   * contains `now`.
   */
  function WindowKey(s: Settings, now: nat): (key: string)
    requires s.windowMs > 0
    ensures |key| > |s.keyPrefix| + 1 && key[..|s.keyPrefix|] == s.keyPrefix && key[|s.keyPrefix|] == ':'
    ensures forall i :: |s.keyPrefix| < i < |key| ==> Decimal.IsDigit(key[i])
    ensures var w := Decimal.Parse(key[|s.keyPrefix| + 1..]); w % s.windowMs == 0 && w <= now < w + s.windowMs
  {
    KeyOf(s.keyPrefix, WindowStart(now, s.windowMs))
  }

  /**
   * Keys do not collide: one key determines both its prefix and its window
   * start, even for prefixes that contain ':' themselves, because the part
   * after the last ':' is all digits.
   */
  lemma KeyOfInjective(p1: string, w1: nat, p2: string, w2: nat)
    requires KeyOf(p1, w1) == KeyOf(p2, w2)
    ensures p1 == p2 && w1 == w2
  {
  }

  /** Instants in different windows address different keys, whatever the prefix. */
  lemma DifferentWindowsDifferentKeys(s: Settings, t1: nat, t2: nat)
    requires s.windowMs > 0
    requires WindowStart(t1, s.windowMs) != WindowStart(t2, s.windowMs)
    ensures WindowKey(s, t1) != WindowKey(s, t2)
  {
  }

  // ---------------------------------------------------------------------------
  // Counts
  // ---------------------------------------------------------------------------

  /** `rateLimitCache.get(key) ?? 0`: the stored count, or 0 when the key is absent. */
  function CountOf(counts: map<string, nat>, key: string): (n: nat)
    ensures key !in counts ==> n == 0
    ensures key in counts ==> n == counts[key]
  {
    if key in counts then counts[key] else 0
  }

  /** The cache after one more hit on `key`: that key's count goes up by one and no other key changes. */
  function Increment(counts: map<string, nat>, key: string): (r: map<string, nat>)
    ensures CountOf(r, key) == CountOf(counts, key) + 1
    ensures forall k :: k != key ==> CountOf(r, k) == CountOf(counts, k)
    ensures r.Keys == counts.Keys + {key}
  {
    counts[key := CountOf(counts, key) + 1]
  }

  // ---------------------------------------------------------------------------
  // The admission decision
  // ---------------------------------------------------------------------------

  /** The data fields of a `RateLimitResult`. */
  datatype Decision = Decision(allowed: bool, remaining: int, resetTime: nat, totalHits: nat)

  /**
   * The decision `checkRateLimit` makes at instant `now` when the current
   * window holds `count` hits.
   */
  function Decide(count: nat, s: Settings, now: nat): (d: Decision)
    requires s.windowMs > 0
    ensures d.totalHits == count
    ensures d.allowed <==> count < s.maxRequests
    ensures d.remaining >= 0
    ensures d.remaining >= s.maxRequests - count
    ensures d.remaining == 0 || d.remaining == s.maxRequests - count
    ensures !d.allowed ==> d.remaining == 0
    ensures d.resetTime % s.windowMs == 0
    ensures now < d.resetTime <= now + s.windowMs
  {
    var start := WindowStart(now, s.windowMs);
    NextWindowAligned(start, s.windowMs);
    Decision(
      count < s.maxRequests,
      if 0 < s.maxRequests - count then s.maxRequests - count else 0,
      start + s.windowMs,
      count)
  }

  /** The decision of a check of `counts` at `now`, read from the current window's key. */
  function Assess(counts: map<string, nat>, s: Settings, now: nat): (d: Decision)
    requires s.windowMs > 0
    ensures d.totalHits == CountOf(counts, WindowKey(s, now))
    ensures d.resetTime == WindowStart(now, s.windowMs) + s.windowMs
  {
    Decide(CountOf(counts, WindowKey(s, now)), s, now)
  }

  /** Two checks in the same window of an unchanged cache report the same decision. */
  lemma SameWindowSameDecision(counts: map<string, nat>, s: Settings, t1: nat, t2: nat)
    requires s.windowMs > 0
    requires WindowStart(t1, s.windowMs) <= t2 < WindowStart(t1, s.windowMs) + s.windowMs
    ensures Assess(counts, s, t2) == Assess(counts, s, t1)
  {
    SameWindow(t1, t2, s.windowMs);
  }

  /** A hit recorded in the window of a later check is counted by that check. */
  lemma RecordSeenInSameWindow(counts: map<string, nat>, s: Settings, recordAt: nat, checkAt: nat)
    requires s.windowMs > 0
    requires WindowStart(recordAt, s.windowMs) == WindowStart(checkAt, s.windowMs)
    ensures Assess(Increment(counts, WindowKey(s, recordAt)), s, checkAt).totalHits
         == Assess(counts, s, checkAt).totalHits + 1
  {
  }

  /** A hit recorded in another window does not change a check's decision. */
  lemma RecordUnseenInOtherWindow(counts: map<string, nat>, s: Settings, recordAt: nat, checkAt: nat)
    requires s.windowMs > 0
    requires WindowStart(recordAt, s.windowMs) != WindowStart(checkAt, s.windowMs)
    ensures Assess(Increment(counts, WindowKey(s, recordAt)), s, checkAt) == Assess(counts, s, checkAt)
  {
    DifferentWindowsDifferentKeys(s, recordAt, checkAt);
  }

  /** The cache after recording one hit at each instant of `times`, in order. */
  function RecordAll(counts: map<string, nat>, s: Settings, times: seq<nat>): map<string, nat>
    requires s.windowMs > 0
    decreases |times|
  {
    if times == [] then counts
    else RecordAll(Increment(counts, WindowKey(s, times[0])), s, times[1..])
  }

  /**
   * `n` hits recorded in the window of a check are all counted: after
   * recording at every instant of `times`, all in the window of `checkAt`,
   * the check reports `|times|` more hits, and denies once the count reaches
   * `maxRequests`.
   */
  lemma {:induction false} RecordAllCounted(counts: map<string, nat>, s: Settings, times: seq<nat>, checkAt: nat)
    requires s.windowMs > 0
    requires forall i :: 0 <= i < |times| ==> WindowStart(times[i], s.windowMs) == WindowStart(checkAt, s.windowMs)
    ensures Assess(RecordAll(counts, s, times), s, checkAt).totalHits
         == Assess(counts, s, checkAt).totalHits + |times|
    decreases |times|
  {
    if times != [] {
      RecordSeenInSameWindow(counts, s, times[0], checkAt);
      RecordAllCounted(Increment(counts, WindowKey(s, times[0])), s, times[1..], checkAt);
    }
  }

  /** Once a window has `maxRequests` hits, every check before its reset denies with nothing remaining. */
  lemma FullWindowDenies(counts: map<string, nat>, s: Settings, times: seq<nat>, checkAt: nat)
    requires s.windowMs > 0
    requires forall i :: 0 <= i < |times| ==> WindowStart(times[i], s.windowMs) == WindowStart(checkAt, s.windowMs)
    requires |times| >= s.maxRequests
    ensures !Assess(RecordAll(counts, s, times), s, checkAt).allowed
    ensures Assess(RecordAll(counts, s, times), s, checkAt).remaining == 0
  {
    RecordAllCounted(counts, s, times, checkAt);
  }

  // ---------------------------------------------------------------------------
  // The retry chain
  // ---------------------------------------------------------------------------

  /**
   * One observation of the clock by a `retry` call: `now` is what
   * `Date.now()` reads before the wait, and `late` is how much later than
   * planned the re-check's `Date.now()` reads (a timer fires at the earliest
   * after its delay).
   */
  datatype Tick = Tick(now: nat, late: nat)

  /** How a retry chain ends within the observations given: settled with its answer, or still waiting. */
  datatype RetryOutcome = Settled(admitted: bool) | Pending

  /**
   * The instant of the re-check after one wait: the chain sleeps for
   * `resetTime - now` when that is positive, so the re-check never happens
   * before the denied window has reset.
   */
  function RecheckTime(d: Decision, t: Tick): (at: nat)
    ensures at >= d.resetTime && at >= t.now
    ensures at == (if d.resetTime - t.now > 0 then d.resetTime else t.now) + t.late
  {
    var waitTime := d.resetTime - t.now;
    var clock := if waitTime > 0 then t.now + waitTime else t.now;
    clock + t.late
  }

  /** A re-check after a denial reads a later window than the denied check, hence a different key. */
  lemma RecheckReadsNextWindow(counts: map<string, nat>, s: Settings, checkedAt: nat, t: Tick)
    requires s.windowMs > 0
    ensures WindowStart(RecheckTime(Assess(counts, s, checkedAt), t), s.windowMs)
         > WindowStart(checkedAt, s.windowMs)
    ensures WindowKey(s, RecheckTime(Assess(counts, s, checkedAt), t)) != WindowKey(s, checkedAt)
  {
    var d := Assess(counts, s, checkedAt);
    var at := RecheckTime(d, t);
    var start := WindowStart(checkedAt, s.windowMs);
    NextWindowAligned(start, s.windowMs);
    WindowStartUnique(d.resetTime, s.windowMs, d.resetTime);
    WindowStartMonotone(d.resetTime, at, s.windowMs);
    DifferentWindowsDifferentKeys(s, at, checkedAt);
  }

  /**
   * `retry()` called on a result with decision `d` whose own counter reads
   * `retryCount`, over a cache that nobody writes meanwhile and the clock
   * observations `ticks`. Gives the outcome and the new value of this
   * result's counter; every re-check yields a new result whose counter starts
   * at 0, and the chain goes on through that result's `retry()`.
   */
  function RetryRun(s: Settings, d: Decision, retryCount: int, counts: map<string, nat>, ticks: seq<Tick>)
    : (r: (RetryOutcome, int))
    requires s.windowMs > 0
    ensures d.allowed ==> r == (Settled(true), retryCount)
    ensures r.0 == Pending ==> !d.allowed
    ensures r.1 == retryCount || r.1 == retryCount + 1
    ensures r.1 == retryCount + 1 ==> ticks != [] && retryCount < s.maxRetries
    decreases |ticks|
  {
    if d.allowed then (Settled(true), retryCount)
    else if ticks == [] then (Pending, retryCount)
    else
      var again := Assess(counts, s, RecheckTime(d, ticks[0]));
      if !again.allowed then
        if retryCount >= s.maxRetries then (Settled(false), retryCount)
        else (RetryRun(s, again, 0, counts, ticks[1..]).0, retryCount + 1)
      else (Settled(true), retryCount)
  }

  /** `retry()` on an allowed result confirms admission at once: no wait, no clock reading, counter untouched. */
  lemma RetryAllowedImmediately(s: Settings, d: Decision, retryCount: int, counts: map<string, nat>, ticks: seq<Tick>)
    requires s.windowMs > 0 && d.allowed
    ensures RetryRun(s, d, retryCount, counts, ticks) == (Settled(true), retryCount)
  {
  }

  /** The retry answers true as soon as its re-check is allowed, whatever its counter reads. */
  lemma RetryAdmittedWhenRecheckAllowed(s: Settings, d: Decision, retryCount: int, counts: map<string, nat>, ticks: seq<Tick>)
    requires s.windowMs > 0 && !d.allowed && ticks != []
    requires Assess(counts, s, RecheckTime(d, ticks[0])).allowed
    ensures RetryRun(s, d, retryCount, counts, ticks) == (Settled(true), retryCount)
  {
  }

  /** Below its ceiling a retry never answers false: a fresh nested result starts its counter at 0 < maxRetries. */
  lemma {:induction false} RetryNeverFailsBelowCeiling(s: Settings, d: Decision, retryCount: int, counts: map<string, nat>, ticks: seq<Tick>)
    requires s.windowMs > 0 && 0 <= retryCount < s.maxRetries
    ensures RetryRun(s, d, retryCount, counts, ticks).0 != Settled(false)
    decreases |ticks|
  {
    if !d.allowed && ticks != [] {
      var again := Assess(counts, s, RecheckTime(d, ticks[0]));
      if !again.allowed {
        RetryNeverFailsBelowCeiling(s, again, 0, counts, ticks[1..]);
      }
    }
  }

  /**
   * The retry answers false exactly when the result is denied, its first
   * re-check is denied too and this result's own counter has already reached
   * `maxRetries`. Nested results never cut the chain off.
   */
  lemma RetryFailsIff(s: Settings, d: Decision, retryCount: int, counts: map<string, nat>, ticks: seq<Tick>)
    requires s.windowMs > 0 && retryCount >= 0
    ensures RetryRun(s, d, retryCount, counts, ticks).0 == Settled(false)
        <==> !d.allowed && ticks != [] && !Assess(counts, s, RecheckTime(d, ticks[0])).allowed
             && retryCount >= s.maxRetries
  {
    if !d.allowed && ticks != [] {
      var again := Assess(counts, s, RecheckTime(d, ticks[0]));
      if !again.allowed && retryCount < s.maxRetries {
        RetryNeverFailsBelowCeiling(s, again, 0, counts, ticks[1..]);
      }
    }
  }

  /** The counter of the retried result goes up by one exactly when the chain goes on to a nested retry. */
  lemma RetryCountStep(s: Settings, d: Decision, retryCount: int, counts: map<string, nat>, ticks: seq<Tick>)
    requires s.windowMs > 0
    ensures RetryRun(s, d, retryCount, counts, ticks).1 == retryCount + 1
        <==> !d.allowed && ticks != [] && !Assess(counts, s, RecheckTime(d, ticks[0])).allowed
             && retryCount < s.maxRetries
    ensures RetryRun(s, d, retryCount, counts, ticks).1 == retryCount
        || RetryRun(s, d, retryCount, counts, ticks).1 == retryCount + 1
  {
  }

  /**
   * A permanently denied key (`maxRequests <= 0`) with a counter below the
   * ceiling never settles: however many clock observations are supplied, the
   * chain is still waiting when they run out.
   */
  lemma {:induction false} PermanentDenialNeverSettles(s: Settings, d: Decision, retryCount: int, counts: map<string, nat>, ticks: seq<Tick>)
    requires s.windowMs > 0 && s.maxRequests <= 0 && !d.allowed
    requires 0 <= retryCount < s.maxRetries
    ensures RetryRun(s, d, retryCount, counts, ticks).0 == Pending
    decreases |ticks|
  {
    if ticks != [] {
      var again := Assess(counts, s, RecheckTime(d, ticks[0]));
      PermanentDenialNeverSettles(s, again, 0, counts, ticks[1..]);
    }
  }

  /** With `maxRetries = 0` the first denied re-check ends a fresh result's retry with false. */
  lemma ZeroRetriesFailAtFirstDenial(s: Settings, d: Decision, counts: map<string, nat>, t: Tick)
    requires s.windowMs > 0 && s.maxRetries == 0 && !d.allowed
    requires !Assess(counts, s, RecheckTime(d, t)).allowed
    ensures RetryRun(s, d, 0, counts, [t]) == (Settled(false), 0)
  {
  }

  /** Recording hits in other keys leaves a key's count as it was. */
  lemma {:induction false} RecordAllElsewhere(counts: map<string, nat>, s: Settings, times: seq<nat>, key: string)
    requires s.windowMs > 0
    requires forall i :: 0 <= i < |times| ==> WindowKey(s, times[i]) != key
    ensures CountOf(RecordAll(counts, s, times), key) == CountOf(counts, key)
    decreases |times|
  {
    if times != [] {
      RecordAllElsewhere(Increment(counts, WindowKey(s, times[0])), s, times[1..], key);
    }
  }

  /**
   * A window filled by hits recorded in it does not stop a retry: the first
   * re-check reads the next window, which holds no hits, so with
   * `maxRequests > 0` the retry answers true after one wait.
   */
  lemma RetryAdmittedAfterReset(s: Settings, times: seq<nat>, checkedAt: nat, retryCount: int, ticks: seq<Tick>)
    requires s.windowMs > 0 && s.maxRequests > 0 && ticks != []
    requires forall i :: 0 <= i < |times| ==> WindowStart(times[i], s.windowMs) == WindowStart(checkedAt, s.windowMs)
    ensures RetryRun(s, Assess(RecordAll(map[], s, times), s, checkedAt), retryCount, RecordAll(map[], s, times), ticks)
         == (Settled(true), retryCount)
  {
    var counts := RecordAll(map[], s, times);
    var d := Assess(counts, s, checkedAt);
    if !d.allowed {
      var at := RecheckTime(d, ticks[0]);
      RecheckReadsNextWindow(counts, s, checkedAt, ticks[0]);
      RecordAllElsewhere(map[], s, times, WindowKey(s, at));
    }
  }

  /** The configuration of the demo chat page: prefix "chat", two messages per 5000 ms, three retries. */
  const ChatConfig: RateLimitConfig := RateLimitConfig(Some("chat"), 2, 5000, Some(3))

  /**
   * The chat limiter after two messages sent at instant `t`: a check at `t`
   * denies with nothing remaining and two hits, one 5000 ms later starts the
   * next window with both messages available again, and a retry of the
   * denied check is admitted.
   */
  lemma ChatScenario(t: nat, tick: Tick)
    ensures
      var s := Resolve(ChatConfig);
      var counts := RecordAll(map[], s, [t, t]);
      var start := WindowStart(t, 5000);
      && Assess(counts, s, t) == Decision(false, 0, start + 5000, 2)
      && Assess(counts, s, t + 5000) == Decision(true, 2, start + 10000, 0)
      && RetryRun(s, Assess(counts, s, t), 0, counts, [tick]) == (Settled(true), 0)
  {
    var s := Resolve(ChatConfig);
    var times := [t, t];
    var counts := RecordAll(map[], s, times);
    var start := WindowStart(t, 5000);
    RecordAllCounted(map[], s, times, t);
    NextWindowAligned(start, 5000);
    WindowStartUnique(t + 5000, 5000, start + 5000);
    DifferentWindowsDifferentKeys(s, t + 5000, t);
    RecordAllElsewhere(map[], s, times, WindowKey(s, t + 5000));
    RetryAdmittedAfterReset(s, times, t, 0, [tick]);
  }

  // ---------------------------------------------------------------------------
  // The cache object and the result object
  // ---------------------------------------------------------------------------

  /** The module-level `rateLimitCache`: hit counts per window key. */
  class RateLimitCache {
    var counts: map<string, nat>

    /** An empty cache, as the module starts. */
    constructor ()
      ensures counts == map[]
    {
      counts := map[];
    }

    /**
     * `recordRateLimit`: one more hit in the current window's key; only
     * `windowMs` and `keyPrefix` are read. The body follows the source step
     * by step; its ensures ties it to `Increment` and `WindowKey`.
     */
    method RecordRateLimit(config: RateLimitConfig, now: nat)
      requires config.windowMs > 0
      modifies this
      ensures counts == Increment(old(counts), WindowKey(Resolve(config), now))
    {
      var windowStart := (now / config.windowMs) * config.windowMs;
      var prefix := match config.keyPrefix case Some(p) => p case None => DefaultKeyPrefix;
      var key := prefix + ":" + Decimal.Show(windowStart);
      var currentCount := if key in counts then counts[key] else 0;
      counts := counts[key := currentCount + 1];
    }

    /**
     * `checkRateLimit`: reads the current window's count, decides admission
     * and returns a result whose retry counter starts at 0. It has no
     * modifies clause, so it cannot write the cache. The body follows the
     * source step by step; its ensures ties it to `Assess`.
     */
    method CheckRateLimit(config: RateLimitConfig, now: nat) returns (r: RateLimitResult)
      requires config.windowMs > 0
      ensures fresh(r)
      ensures r.settings == Resolve(config) && r.cache == this && r.retryCount == 0
      ensures r.decision == Assess(counts, Resolve(config), now)
    {
      var s := Resolve(config);
      var windowStart := (now / s.windowMs) * s.windowMs;
      var key := s.keyPrefix + ":" + Decimal.Show(windowStart);
      var count := if key in counts then counts[key] else 0;
      var allowed := count < s.maxRequests;
      var remaining := if 0 < s.maxRequests - count then s.maxRequests - count else 0;
      var resetTime := windowStart + s.windowMs;
      r := new RateLimitResult(s, Decision(allowed, remaining, resetTime, count), this);
    }
  }

  /** A `RateLimitResult` with its `retry` closure and the `retryCount` that closure captures. */
  class RateLimitResult {
    const settings: Settings
    const decision: Decision
    const cache: RateLimitCache
    var retryCount: int

    constructor (settings: Settings, decision: Decision, cache: RateLimitCache)
      ensures this.settings == settings && this.decision == decision && this.cache == cache
      ensures retryCount == 0
    {
      this.settings := settings;
      this.decision := decision;
      this.cache := cache;
      retryCount := 0;
    }

    /**
     * `retry()`: on a denied result, waits until the window resets, checks
     * again with the same configuration, and either answers or hands on to
     * the new result's `retry()`. Only this result's counter changes; the
     * cache is read but never written.
     */
    method Retry(ticks: seq<Tick>) returns (outcome: RetryOutcome)
      requires settings.windowMs > 0
      modifies this
      ensures (outcome, retryCount) == RetryRun(settings, decision, old(retryCount), cache.counts, ticks)
      ensures cache.counts == old(cache.counts)
      decreases |ticks|
    {
      if !decision.allowed {
        if ticks == [] {
          return Pending;
        }
        var clock := ticks[0].now;
        var waitTime := decision.resetTime - clock;
        if waitTime > 0 {
          clock := clock + waitTime;
        }
        clock := clock + ticks[0].late;
        var retryResult := cache.CheckRateLimit(settings.AsConfig(), clock);
        if !retryResult.decision.allowed {
          if retryCount >= settings.maxRetries {
            return Settled(false);
          }
          retryCount := retryCount + 1;
          outcome := retryResult.Retry(ticks[1..]);
          return;
        }
        return Settled(true);
      }
      return Settled(true);
    }
  }
}
