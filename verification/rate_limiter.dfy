/**
 * The fixed-window rate limiter: a module-level store from client identifier
 * to (count, resetTime), checked and updated in place by every limiter, and
 * the derivation of the client identifier from request headers.
 * `Date.now()` is the `now` parameter (milliseconds).
 */
module RateLimiter {
  import opened Wrappers
  import opened JsString
  import Base64

  datatype Entry = Entry(count: int, resetTime: int)

  datatype Config = Config(windowMs: int, maxRequests: int)

  /** What `check` returns; `retryAfter` (seconds) is present only on a denial. */
  datatype CheckResult = CheckResult(allowed: bool, remaining: int, resetTime: int, retryAfter: Option<int>)

  /** `contactFormLimiter`: 5 requests per 15 minutes. */
  const ContactFormConfig := Config(15 * 60 * 1000, 5)

  /** `apiLimiter`: 20 requests per minute. */
  const ApiConfig := Config(60 * 1000, 20)

  /** `Math.ceil(ms / 1000)`, for any integer `ms`. */
  function CeilSeconds(ms: int): (r: int)
    ensures (r - 1) * 1000 < ms <= r * 1000
  {
    -((-ms) / 1000)
  }

  /** The store after `cleanup(cutoff)`: the entries whose window ends after `cutoff`. */
  function Pruned(m: map<string, Entry>, cutoff: int): map<string, Entry> {
    map k | k in m && m[k].resetTime > cutoff :: m[k]
  }

  /** The decision of `check` on the already cleaned store: the new store and the result. */
  function Decide(m: map<string, Entry>, id: string, now: int, config: Config): (map<string, Entry>, CheckResult) {
    if id !in m || m[id].resetTime <= now then
      var e := Entry(1, now + config.windowMs);
      (m[id := e], CheckResult(true, config.maxRequests - 1, e.resetTime, None))
    else if m[id].count >= config.maxRequests then
      (m, CheckResult(false, 0, m[id].resetTime, Some(CeilSeconds(m[id].resetTime - now))))
    else
      var e := m[id].(count := m[id].count + 1);
      (m[id := e], CheckResult(true, config.maxRequests - e.count, e.resetTime, None))
  }

  /** One `check(id)` at time `now`: cleanup relative to `now - windowMs`, then the decision. */
  function Step(m: map<string, Entry>, id: string, now: int, config: Config): (map<string, Entry>, CheckResult) {
    Decide(Pruned(m, now - config.windowMs), id, now, config)
  }

  /** The module-level `rateLimitStore`, one object shared by every limiter. */
  class Store {
    var entries: map<string, Entry>

    constructor ()
      ensures entries == map[]
    {
      entries := map[];
    }
  }

  class Limiter {
    const config: Config
    const store: Store

    constructor (config: Config, store: Store)
      ensures this.config == config && this.store == store
    {
      this.config := config;
      this.store := store;
    }

    /** `cleanup(cutoff)`: delete, one by one, the entries whose window ended at or before `cutoff`. */
    method Cleanup(cutoff: int)
      modifies store
      ensures store.entries == Pruned(old(store.entries), cutoff)
    {
      ghost var orig := store.entries;
      var keys := store.entries.Keys;
      while keys != {}
        invariant keys <= orig.Keys
        invariant store.entries == map k | k in orig && (k in keys || orig[k].resetTime > cutoff) :: orig[k]
        decreases keys
      {
        var k :| k in keys;
        if store.entries[k].resetTime <= cutoff {
          store.entries := store.entries - {k};
        }
        keys := keys - {k};
      }
    }

    /** `check(identifier)` at time `now`. */
    method Check(identifier: string, now: int) returns (r: CheckResult)
      modifies store
      ensures (store.entries, r) == Step(old(store.entries), identifier, now, config)
    {
      Cleanup(now - config.windowMs);
      if identifier !in store.entries || store.entries[identifier].resetTime <= now {
        var started := Entry(1, now + config.windowMs);
        store.entries := store.entries[identifier := started];
        return CheckResult(true, config.maxRequests - 1, started.resetTime, None);
      }
      var entry := store.entries[identifier];
      if entry.count >= config.maxRequests {
        return CheckResult(false, 0, entry.resetTime, Some(CeilSeconds(entry.resetTime - now)));
      }
      entry := entry.(count := entry.count + 1);
      store.entries := store.entries[identifier := entry];
      return CheckResult(true, config.maxRequests - entry.count, entry.resetTime, None);
    }
  }

  /** `contactFormLimiter` and `apiLimiter`, both over the one store. */
  method CreateLimiters() returns (contact: Limiter, api: Limiter)
    ensures fresh(contact) && fresh(api) && fresh(contact.store)
    ensures contact.store == api.store && contact.store.entries == map[]
    ensures contact.config == ContactFormConfig && api.config == ApiConfig
  {
    var store := new Store();
    contact := new Limiter(ContactFormConfig, store);
    api := new Limiter(ApiConfig, store);
  }

  // ---------------------------------------------------------------------------
  // Properties of one check

  /** No entry, or an expired one: allowed, a fresh window with count 1, `maxRequests - 1` remaining. */
  lemma FreshWindow(m: map<string, Entry>, id: string, now: int, config: Config)
    requires config.windowMs >= 0
    requires id !in m || m[id].resetTime <= now
    ensures var (m', r) := Step(m, id, now, config);
      r.allowed && r.remaining == config.maxRequests - 1 && r.retryAfter.None?
      && m'[id] == Entry(1, now + config.windowMs) && r.resetTime == now + config.windowMs
  {
  }

  /** A full window: denied, nothing remaining, the store after cleanup left as it is. */
  lemma Denied(m: map<string, Entry>, id: string, now: int, config: Config)
    requires id in m && m[id].resetTime > now && m[id].count >= config.maxRequests
    requires config.windowMs >= 0
    ensures var (m', r) := Step(m, id, now, config);
      !r.allowed && r.remaining == 0 && r.resetTime == m[id].resetTime
      && m' == Pruned(m, now - config.windowMs) && m'[id] == m[id]
  {
  }

  /** A denial always tells the client to wait at least one second, and no longer than the window has left. */
  lemma RetryAfterAtLeastOneSecond(m: map<string, Entry>, id: string, now: int, config: Config)
    requires !Step(m, id, now, config).1.allowed
    ensures var r := Step(m, id, now, config).1;
      r.retryAfter.Some? && r.retryAfter.value >= 1
      && (r.retryAfter.value - 1) * 1000 < r.resetTime - now <= r.retryAfter.value * 1000
  {
  }

  /** Inside a window with room left: the count rises by exactly one and `remaining` never goes negative. */
  lemma Increment(m: map<string, Entry>, id: string, now: int, config: Config)
    requires config.windowMs >= 0
    requires id in m && m[id].resetTime > now && m[id].count < config.maxRequests
    ensures var (m', r) := Step(m, id, now, config);
      r.allowed && m'[id] == Entry(m[id].count + 1, m[id].resetTime)
      && r.remaining == config.maxRequests - m'[id].count && r.remaining >= 0
  {
  }

  /** Cleanup never changes a decision: an entry it deletes had already expired at `now`. */
  lemma CleanupIsInvisible(m: map<string, Entry>, id: string, now: int, config: Config)
    requires config.windowMs >= 0
    ensures Step(m, id, now, config).1 == Decide(m, id, now, config).1
    ensures Step(m, id, now, config).0[id] == Decide(m, id, now, config).0[id]
  {
  }

  /** A check changes no other identifier's entry, except that cleanup may drop expired ones. */
  lemma OtherEntriesUntouched(m: map<string, Entry>, id: string, now: int, config: Config, other: string)
    requires other != id
    ensures var m' := Step(m, id, now, config).0;
      (other in m' <==> other in m && m[other].resetTime > now - config.windowMs)
      && (other in m' ==> m'[other] == m[other])
  {
  }

  // ---------------------------------------------------------------------------
  // Invariant of the store

  /** Every stored count is between 1 and `bound`. */
  ghost predicate CountsWithin(m: map<string, Entry>, bound: int) {
    forall k :: k in m ==> 1 <= m[k].count <= bound
  }

  /**
   * A check by any limiter whose `maxRequests` is at least 1 and at most `bound`
   * keeps every count within `bound`: with one limiter, no count exceeds its
   * `maxRequests`; over the shared store, none exceeds the largest one.
   */
  lemma StepKeepsCountsWithin(m: map<string, Entry>, id: string, now: int, config: Config, bound: int)
    requires 1 <= config.maxRequests <= bound
    requires CountsWithin(m, bound)
    ensures CountsWithin(Step(m, id, now, config).0, bound)
  {
  }

  // ---------------------------------------------------------------------------
  // A run of checks for one identifier

  /** The results of checking `id` at each of the `times`, in order. */
  function Run(m: map<string, Entry>, id: string, times: seq<int>, config: Config): seq<CheckResult>
    decreases |times|
  {
    if times == [] then []
    else
      var (m', r) := Step(m, id, times[0], config);
      [r] + Run(m', id, times[1..], config)
  }

  /** The window opened at `start` (ending at `start + windowMs`) contains every time of `times`, in order. */
  ghost predicate InWindow(times: seq<int>, start: int, config: Config) {
    (forall i, j :: 0 <= i < j < |times| ==> times[i] <= times[j])
    && (forall i :: 0 <= i < |times| ==> start <= times[i] < start + config.windowMs)
  }

  /** Inside the current window with `count` requests already counted, the next ones are allowed until the limit. */
  lemma {:induction false} RunInsideWindow(m: map<string, Entry>, id: string, times: seq<int>, config: Config, start: int)
    requires config.windowMs >= 1
    requires id in m && m[id] == Entry(m[id].count, start + config.windowMs) && m[id].count >= 1
    requires InWindow(times, start, config)
    ensures |Run(m, id, times, config)| == |times|
    ensures forall i :: 0 <= i < |times| ==>
      var r := Run(m, id, times, config)[i];
      r.allowed == (m[id].count + i < config.maxRequests)
      && (r.allowed ==> r.remaining == config.maxRequests - (m[id].count + i + 1))
    decreases |times|
  {
    if times != [] {
      var now := times[0];
      var (m', r) := Step(m, id, now, config);
      var next := if m[id].count < config.maxRequests then m[id].count + 1 else m[id].count;
      assert m'[id] == Entry(next, start + config.windowMs);
      assert InWindow(times[1..], start, config);
      RunInsideWindow(m', id, times[1..], config, start);
      var rs := Run(m, id, times, config);
      assert rs == [r] + Run(m', id, times[1..], config);
      forall i | 0 <= i < |times|
        ensures rs[i].allowed == (m[id].count + i < config.maxRequests)
        ensures rs[i].allowed ==> rs[i].remaining == config.maxRequests - (m[id].count + i + 1)
      {
        if i > 0 {
          assert rs[i] == Run(m', id, times[1..], config)[i - 1];
          if m[id].count >= config.maxRequests {
            assert next + (i - 1) >= config.maxRequests;
          }
        }
      }
    }
  }

  /**
   * Within one window that starts with no live entry for `id`, the first
   * `maxRequests` calls are allowed (with `remaining` counting down to 0)
   * and every later call is denied.
   */
  lemma {:induction false} WindowAllowsExactlyMax(m: map<string, Entry>, id: string, times: seq<int>, config: Config)
    requires config.windowMs >= 1 && config.maxRequests >= 1
    requires |times| >= 1
    requires id !in m || m[id].resetTime <= times[0]
    requires InWindow(times, times[0], config)
    ensures |Run(m, id, times, config)| == |times|
    ensures forall i :: 0 <= i < |times| ==>
      var r := Run(m, id, times, config)[i];
      r.allowed == (i < config.maxRequests)
      && (r.allowed ==> r.remaining == config.maxRequests - 1 - i)
  {
    var (m', r) := Step(m, id, times[0], config);
    FreshWindow(m, id, times[0], config);
    assert InWindow(times[1..], times[0], config);
    RunInsideWindow(m', id, times[1..], config, times[0]);
    var rs := Run(m, id, times, config);
    assert rs == [r] + Run(m', id, times[1..], config);
    forall i | 0 <= i < |times|
      ensures rs[i].allowed == (i < config.maxRequests)
      ensures rs[i].allowed ==> rs[i].remaining == config.maxRequests - 1 - i
    {
      if i > 0 {
        assert rs[i] == Run(m', id, times[1..], config)[i - 1];
      }
    }
  }

  // ---------------------------------------------------------------------------
  // getClientIdentifier

  /** Request headers, by lower-case name; a missing name is `null`. */
  type Headers = map<string, string>

  /** `headers.get(name)` is present and not the empty string (a truthy value). */
  predicate HasValue(h: Headers, name: string) {
    name in h && h[name] != ""
  }

  /** `headers.get(name) || ""`. */
  function ValueOr(h: Headers, name: string): string {
    if name in h then h[name] else ""
  }

  /** The first entry of a comma-separated `x-forwarded-for`, trimmed. */
  function FirstForwarded(v: string): (r: string)
    ensures ',' !in r
    ensures r != [] ==> !IsWhitespace(r[0]) && !IsWhitespace(r[|r| - 1])
    ensures exists k :: 0 <= k <= |v| && ',' !in v[..k] && (k == |v| || v[k] == ',') && r == Trim(v[..k])
  {
    var first := Split(v, ',')[0];
    SplitFirstPiece(v, ',');
    TrimChars(first);
    Trim(first)
  }

  /** `"fallback-" + btoa(userAgent + accept).slice(0, 16)`, or `None` when `btoa` throws. */
  function Fallback(h: Headers): (r: Option<string>)
    ensures r.Some? ==> "fallback-" <= r.value && |r.value| <= 9 + 16
    ensures r.Some? ==> forall i :: 9 <= i < |r.value| ==> Base64.IsAlphabetChar(r.value[i]) || r.value[i] == '='
  {
    var text := ValueOr(h, "user-agent") + ValueOr(h, "accept");
    match Base64.Btoa(text)
    case None => None
    case Some(enc) =>
      Base64.BtoaRoundTrip(text);
      Base64.EncodingAlphabet(enc);
      var fingerprint := if |enc| <= 16 then enc else enc[..16];
      Some("fallback-" + fingerprint)
  }

  /**
   * `getClientIdentifier`: the first of x-forwarded-for (first entry, trimmed),
   * x-real-ip and cf-connecting-ip that is present and non-empty, otherwise a
   * fingerprint of user-agent and accept. `None`: `btoa` threw.
   */
  function GetClientIdentifier(h: Headers): (r: Option<string>)
    ensures HasValue(h, "x-forwarded-for") ==> r == Some(FirstForwarded(h["x-forwarded-for"]))
    ensures !HasValue(h, "x-forwarded-for") && HasValue(h, "x-real-ip") ==> r == Some(h["x-real-ip"])
    ensures !HasValue(h, "x-forwarded-for") && !HasValue(h, "x-real-ip") && HasValue(h, "cf-connecting-ip")
      ==> r == Some(h["cf-connecting-ip"])
    ensures !HasValue(h, "x-forwarded-for") && !HasValue(h, "x-real-ip") && !HasValue(h, "cf-connecting-ip")
      ==> r == Fallback(h)
  {
    if HasValue(h, "x-forwarded-for") then Some(FirstForwarded(h["x-forwarded-for"]))
    else if HasValue(h, "x-real-ip") then Some(h["x-real-ip"])
    else if HasValue(h, "cf-connecting-ip") then Some(h["cf-connecting-ip"])
    else Fallback(h)
  }

  /** Headers of lower priority never matter once one of higher priority is present and non-empty. */
  lemma IdentifierIgnoresLowerSources(h: Headers, h': Headers)
    requires HasValue(h, "x-forwarded-for")
    requires "x-forwarded-for" in h' && h'["x-forwarded-for"] == h["x-forwarded-for"]
    ensures GetClientIdentifier(h) == GetClientIdentifier(h')
  {
  }

  /** Only the fallback can fail, and only when user-agent or accept holds a character above U+00FF. */
  lemma IdentifierFailsOnlyOnWideCharacters(h: Headers)
    ensures GetClientIdentifier(h).None? <==>
      !HasValue(h, "x-forwarded-for") && !HasValue(h, "x-real-ip") && !HasValue(h, "cf-connecting-ip")
      && exists i :: 0 <= i < |ValueOr(h, "user-agent") + ValueOr(h, "accept")|
           && (ValueOr(h, "user-agent") + ValueOr(h, "accept"))[i] as int >= 256
  {
  }
}
