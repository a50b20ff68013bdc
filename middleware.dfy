/**
 * Request helpers of lib/middleware.ts: the header check of
 * `getUserFromRequest`, the fixed-window rate limiter over the module-level
 * `requestCounts` map, and `validateRequired`. Token verification and the
 * clock are parameters.
 */
module Middleware {
  import opened Js

  // ---------------------------------------------------------------------------
  // getUserFromRequest
  // ---------------------------------------------------------------------------

  const BearerPrefix: string := "Bearer "

  /**
   * `getUserFromRequest`: null unless the header starts with `Bearer `; the
   * token handed to the verifier is the header with that prefix replaced by
   * nothing (`String.replace` removes the first occurrence).
   */
  function GetUserFromRequest<U>(authHeader: Option<string>, verifyToken: string -> Option<U>): Option<U>
  {
    if !TruthyString(authHeader) || !StartsWith(authHeader.value, BearerPrefix) then None
    else verifyToken(ReplaceFirst(authHeader.value, BearerPrefix, ""))
  }

  /** A user is found only for a `Bearer ` header, and only through the token after the prefix. */
  lemma GetUserFromRequestSpec<U>(authHeader: Option<string>, verifyToken: string -> Option<U>)
    ensures !(authHeader.Some? && StartsWith(authHeader.value, BearerPrefix)) ==>
              GetUserFromRequest(authHeader, verifyToken) == None
    ensures authHeader.Some? && StartsWith(authHeader.value, BearerPrefix) ==>
              GetUserFromRequest(authHeader, verifyToken) == verifyToken(authHeader.value[|BearerPrefix|..])
  {
    if authHeader.Some? && StartsWith(authHeader.value, BearerPrefix) {
      ReplacePrefix(authHeader.value, BearerPrefix);
    }
  }

  // ---------------------------------------------------------------------------
  // rateLimit
  // ---------------------------------------------------------------------------

  /** `RateLimitRule`: window length in milliseconds and the request budget per window. */
  datatype RateLimitRule = RateLimitRule(windowMs: int, maxRequests: int)

  /** An entry of `requestCounts`. */
  datatype Window = Window(count: int, resetTime: int)

  /** Whether `next()` is called, or the 429 response with its `retryAfter` in seconds. */
  datatype Decision = Allowed | TooManyRequests(retryAfter: int)

  /** `Math.ceil(ms / 1000)` on an integer number of milliseconds. */
  function CeilSeconds(ms: int): (s: int)
    ensures 1000 * s >= ms && 1000 * (s - 1) < ms
  {
    -((-ms) / 1000)
  }

  /** `${clientId}-${req.url}`, with the client id falling back from the forwarded-for header. */
  function ClientKey(forwardedFor: Option<string>, remoteAddress: Option<string>, url: string): string
  {
    var clientId :=
      if TruthyString(forwardedFor) then forwardedFor.value
      else if TruthyString(remoteAddress) then remoteAddress.value
      else "unknown";
    clientId + "-" + url
  }

  /** The entry a request leaves for its key and the decision taken, given the entry it found. */
  function Admit(current: Option<Window>, rule: RateLimitRule, now: int): (Window, Decision)
  {
    if current.None? || now > current.value.resetTime then
      (Window(1, now + rule.windowMs), Allowed)
    else if current.value.count >= rule.maxRequests then
      (current.value, TooManyRequests(CeilSeconds(current.value.resetTime - now)))
    else
      (Window(current.value.count + 1, current.value.resetTime), Allowed)
  }

  function Lookup(m: map<string, Window>, key: string): Option<Window>
  {
    if key in m then Some(m[key]) else None
  }

  /** The request-count table shared by every rate-limited route. */
  class RequestCounts {
    var entries: map<string, Window>

    constructor ()
      ensures entries == map[]
    {
      entries := map[];
    }

    /**
     * One call of the handler `rateLimit(rule)` returns: it touches only the
     * entry of `${clientId}-${url}` and decides as `Admit` does.
     */
    method RateLimit(rule: RateLimitRule, forwardedFor: Option<string>, remoteAddress: Option<string>,
                     url: string, now: int) returns (decision: Decision)
      modifies this
      ensures var key := ClientKey(forwardedFor, remoteAddress, url);
              var (w, d) := Admit(Lookup(old(entries), key), rule, now);
              && decision == d
              && entries == old(entries)[key := w]
      ensures forall k :: k != ClientKey(forwardedFor, remoteAddress, url) ==> Lookup(entries, k) == Lookup(old(entries), k)
    {
      var key := ClientKey(forwardedFor, remoteAddress, url);
      var current := Lookup(entries, key);
      if current.None? || now > current.value.resetTime {
        entries := entries[key := Window(1, now + rule.windowMs)];
        return Allowed;
      }
      if current.value.count >= rule.maxRequests {
        return TooManyRequests(CeilSeconds(current.value.resetTime - now));
      }
      entries := entries[key := Window(current.value.count + 1, current.value.resetTime)];
      decision := Allowed;
    }
  }

  /** A request with no live window opens a new one with count 1 and is allowed. */
  lemma AdmitOpensWindow(current: Option<Window>, rule: RateLimitRule, now: int)
    requires current.None? || now > current.value.resetTime
    ensures Admit(current, rule, now) == (Window(1, now + rule.windowMs), Allowed)
  {
  }

  /**
   * Inside a live window, a request over budget is refused with the entry
   * unchanged and a non-negative `retryAfter` that rounds the remaining time up.
   */
  lemma AdmitRefusesOverBudget(w: Window, rule: RateLimitRule, now: int)
    requires now <= w.resetTime && w.count >= rule.maxRequests
    ensures Admit(Some(w), rule, now).0 == w
    ensures Admit(Some(w), rule, now).1.TooManyRequests?
    ensures var r := Admit(Some(w), rule, now).1.retryAfter;
            r >= 0 && 1000 * r >= w.resetTime - now && 1000 * (r - 1) < w.resetTime - now
  {
  }

  /** Otherwise the count goes up by exactly one and the request is allowed. */
  lemma AdmitCounts(w: Window, rule: RateLimitRule, now: int)
    requires now <= w.resetTime && w.count < rule.maxRequests
    ensures Admit(Some(w), rule, now) == (Window(w.count + 1, w.resetTime), Allowed)
  {
  }

  /** Replays requests on one key from the entry it starts with; counts the allowed ones. */
  function AllowedCount(current: Option<Window>, rule: RateLimitRule, times: seq<int>): nat
    decreases |times|
  {
    if times == [] then 0
    else
      var (w, d) := Admit(current, rule, times[0]);
      (if d == Allowed then 1 else 0) + AllowedCount(Some(w), rule, times[1..])
  }

  function Max(a: int, b: int): int
  {
    if a >= b then a else b
  }

  /**
   * While a window is live, requests are allowed only until its count reaches
   * the budget: from a window at count c, at most max(0, maxRequests - c) more.
   */
  lemma {:induction false} WindowBudget(w: Window, rule: RateLimitRule, times: seq<int>)
    requires w.count >= 1
    requires forall k :: 0 <= k < |times| ==> times[k] <= w.resetTime
    ensures w.count + AllowedCount(Some(w), rule, times) <= Max(w.count, rule.maxRequests)
    decreases |times|
  {
    if times != [] {
      var (w', d) := Admit(Some(w), rule, times[0]);
      assert w'.resetTime == w.resetTime;
      assert forall k :: 0 <= k < |times[1..]| ==> times[1..][k] <= w'.resetTime by {
        forall k | 0 <= k < |times[1..]| ensures times[1..][k] <= w'.resetTime {
          assert times[1..][k] == times[k + 1];
        }
      }
      WindowBudget(w', rule, times[1..]);
    }
  }

  /**
   * The request that opens a window at `start`, together with every later
   * request up to `start + windowMs`, is allowed at most max(1, maxRequests) times.
   */
  lemma WindowAllowsAtMostBudget(current: Option<Window>, rule: RateLimitRule, start: int, times: seq<int>)
    requires current.None? || start > current.value.resetTime
    requires forall k :: 0 <= k < |times| ==> times[k] <= start + rule.windowMs
    ensures AllowedCount(current, rule, [start] + times) <= Max(1, rule.maxRequests)
  {
    var started := Window(1, start + rule.windowMs);
    assert ([start] + times)[1..] == times;
    WindowBudget(started, rule, times);
  }

  // ---------------------------------------------------------------------------
  // validateRequired
  // ---------------------------------------------------------------------------

  /** `value === undefined || value === null || value === ''` */
  predicate Missing(v: JsValue)
  {
    v == Undefined || v == Null || v == Str("")
  }

  /**
   * `validateRequired` over `Object.entries(fields)`: null when no value is
   * missing, otherwise the message naming the first missing key. `fields`
   * stands for `Object.entries(fields)`: distinct keys, in the engine's
   * property order (integer-like keys first, then insertion order).
   */
  method ValidateRequired(fields: seq<(string, JsValue)>) returns (error: Option<string>)
    ensures error.None? <==> forall k :: 0 <= k < |fields| ==> !Missing(fields[k].1)
    ensures error.Some? ==>
              exists k :: && 0 <= k < |fields| && Missing(fields[k].1)
                          && (forall l :: 0 <= l < k ==> !Missing(fields[l].1))
                          && error.value == fields[k].0 + " is required"
  {
    var i := 0;
    while i < |fields|
      invariant 0 <= i <= |fields|
      invariant forall l :: 0 <= l < i ==> !Missing(fields[l].1)
    {
      var (key, value) := fields[i];
      if value == Undefined || value == Null || value == Str("") {
        return Some(key + " is required");
      }
      i := i + 1;
    }
    return None;
  }
}
