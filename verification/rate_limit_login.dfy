/**
 * RateLimitLogin middleware: the throttle key built from the e-mail and the
 * client address, and the per-key attempt counter that rejects a sixth
 * attempt inside the window.
 */
module RateLimitLogin {
  import opened Wrappers
  import opened Json
  import Text

  const MaxAttempts: nat := 5
  const DecaySeconds: nat := 60
  const KeyPrefix: string := "login_throttle:"

  /**
   * `resolveKey`: the lower-cased e-mail (`anonymous` when the input has
   * none) and the client IP, joined under the throttle prefix.
   */
  function ResolveKey(email: Option<string>, ip: string): (key: string)
    ensures |key| == |KeyPrefix| + |email.GetOr("anonymous")| + 1 + |ip|
    ensures Text.StartsWith(key, KeyPrefix)
    ensures key[|key| - |ip| - 1] == '|' && key[|key| - |ip|..] == ip
    ensures forall k :: |KeyPrefix| <= k < |key| - |ip| - 1 ==> !Text.IsUpper(key[k])
  {
    var key := KeyPrefix + Text.Lower(email.GetOr("anonymous")) + "|" + ip;
    assert key[..|KeyPrefix|] == KeyPrefix;
    assert key[|key| - |ip|..] == ip;
    key
  }

  /** E-mails that differ only in letter case share one counter. */
  lemma KeyIgnoresCase(e1: string, e2: string, ip: string)
    requires Text.Lower(e1) == Text.Lower(e2)
    ensures ResolveKey(Some(e1), ip) == ResolveKey(Some(e2), ip)
  {
  }

  /** Cutting at the last `|` recovers both halves when the tail has none. */
  lemma SplitAtLastBar(a: string, x: string, b: string, y: string)
    requires '|' !in x && '|' !in y
    requires a + "|" + x == b + "|" + y
    ensures a == b && x == y
  {
    if |x| <= |y| {
      SplitShorterTail(a, x, b, y);
    } else {
      SplitShorterTail(b, y, a, x);
    }
  }

  lemma SplitShorterTail(a: string, x: string, b: string, y: string)
    requires '|' !in y && |x| <= |y|
    requires a + "|" + x == b + "|" + y
    ensures a == b && x == y
  {
    var k := a + "|" + x;
    var n := |k|;
    if |x| < |y| {
      BarInLongerTail(a, x, b, y);
      assert false;
    }
    assert a == k[..|a|];
    assert b == k[..|b|];
    assert x == k[|a| + 1..];
    assert y == k[|b| + 1..];
  }

  lemma BarInLongerTail(a: string, x: string, b: string, y: string)
    requires a + "|" + x == b + "|" + y && |x| < |y|
    ensures y[|y| - |x| - 1] == '|'
  {
    var k := a + "|" + x;
    assert k[|a|] == '|';
    assert k[|a|] == y[|y| - |x| - 1];
  }

  /**
   * Distinct (lower-cased e-mail, address) pairs get distinct keys, as long as
   * the address has no `|` in it (true of IPv4 and IPv6 text forms).
   */
  lemma KeyDeterminesEmailAndIp(e1: Option<string>, ip1: string, e2: Option<string>, ip2: string)
    requires '|' !in ip1 && '|' !in ip2
    requires ResolveKey(e1, ip1) == ResolveKey(e2, ip2)
    ensures ip1 == ip2
    ensures Text.Lower(e1.GetOr("anonymous")) == Text.Lower(e2.GetOr("anonymous"))
  {
    var l1 := Text.Lower(e1.GetOr("anonymous"));
    var l2 := Text.Lower(e2.GetOr("anonymous"));
    assert (KeyPrefix + l1) + "|" + ip1 == (KeyPrefix + l2) + "|" + ip2;
    SplitAtLastBar(KeyPrefix + l1, ip1, KeyPrefix + l2, ip2);
    assert l1 == (KeyPrefix + l1)[|KeyPrefix|..];
    assert l2 == (KeyPrefix + l2)[|KeyPrefix|..];
  }

  function ThrottleMessage(seconds: nat): string {
    "Muitas tentativas de login detectadas. Por segurança, tente novamente em "
      + Text.NatToString(seconds) + " segundos."
  }

  /** The 429 answer: the seconds left in the window and the attempt limit. */
  function ThrottledResponse(seconds: nat): (r: Response)
    ensures r.status == 429 && IsFailureEnvelope(r)
    ensures DataOf(r) == JObject(map["retry_after_seconds" := JInt(seconds), "max_attempts" := JInt(MaxAttempts)])
  {
    ReturnJson(JObject(map["retry_after_seconds" := JInt(seconds), "max_attempts" := JInt(MaxAttempts)]),
               ThrottleMessage(seconds), JBool(false), 429)
  }

  /** `RateLimiter::remaining`: attempts left, never below zero. */
  function Remaining(attempts: nat): (left: nat)
    ensures left <= MaxAttempts
    ensures attempts <= MaxAttempts ==> left + attempts == MaxAttempts
  {
    if attempts >= MaxAttempts then 0 else MaxAttempts - attempts
  }

  /** The forwarded response with the limit headers added (header names lower-cased). */
  function WithLimitHeaders(r: Response, attempts: nat): (out: Response)
    ensures out.status == r.status && out.body == r.body
    ensures out.headers.Keys == r.headers.Keys + {"x-ratelimit-limit", "x-ratelimit-remaining"}
    ensures out.headers["x-ratelimit-limit"] == Text.NatToString(MaxAttempts)
    ensures out.headers["x-ratelimit-remaining"] == Text.NatToString(Remaining(attempts))
  {
    r.(headers := r.headers["x-ratelimit-limit" := Text.NatToString(MaxAttempts)]
                           ["x-ratelimit-remaining" := Text.NatToString(Remaining(attempts))])
  }

  /** The shared cache of attempt counters, one per throttle key. */
  class LoginThrottle {
    var hits: map<string, nat>

    constructor ()
      ensures hits == map[]
    {
      hits := map[];
    }

    function Attempts(key: string): nat
      reads this
    {
      if key in hits then hits[key] else 0
    }

    /**
     * `handle`. `clean` is `RateLimiter::cleanRateLimiterKey`, which every
     * RateLimiter call applies to the key before it reaches the cache;
     * `availableIn` is the clock's answer to how many seconds remain in the
     * window; `next` is the login response. The request counts against the
     * cleaned form of the key `resolveKey` builds from it.
     */
    method Handle(email: Option<string>, ip: string, clean: string -> string, availableIn: nat, next: Response)
      returns (r: Response, forwarded: bool)
      modifies this
      ensures forwarded == (old(Attempts(clean(ResolveKey(email, ip)))) < MaxAttempts)
      ensures !forwarded ==> hits == old(hits) && r == ThrottledResponse(availableIn)
      ensures forwarded ==>
        hits == old(hits)[clean(ResolveKey(email, ip)) := old(Attempts(clean(ResolveKey(email, ip)))) + 1]
      ensures forwarded ==> r == WithLimitHeaders(next, Attempts(clean(ResolveKey(email, ip))))
    {
      r, forwarded := Hit(clean(ResolveKey(email, ip)), availableIn, next);
    }

    /**
     * One request against the cache key `key` (already cleaned): at the limit it is refused without counting
     * it; otherwise exactly one attempt is recorded before the login runs,
     * and the response reports the attempts left.
     */
    method Hit(key: string, availableIn: nat, next: Response) returns (r: Response, forwarded: bool)
      modifies this
      ensures forwarded == (old(Attempts(key)) < MaxAttempts)
      ensures !forwarded ==> hits == old(hits) && r == ThrottledResponse(availableIn)
      ensures forwarded ==> hits == old(hits)[key := old(Attempts(key)) + 1]
      ensures forwarded ==> r == WithLimitHeaders(next, Attempts(key))
    {
      if Attempts(key) >= MaxAttempts {
        r, forwarded := ThrottledResponse(availableIn), false;
        return;
      }
      var count := Attempts(key) + 1;
      hits := hits[key := count];
      r, forwarded := WithLimitHeaders(next, count), true;
    }

    /** The window for `key` elapses: its counter is dropped. */
    method Expire(key: string)
      modifies this
      ensures hits == old(hits) - {key}
      ensures Attempts(key) == 0
      ensures forall k :: k != key ==> Attempts(k) == old(Attempts(k))
    {
      hits := hits - {key};
    }
  }

  /**
   * From a fresh counter, five attempts pass and the sixth is refused; once
   * the window has elapsed, the next attempt passes again.
   */
  method SixthAttemptThrottled(key: string, availableIn: nat, next: Response)
    returns (passed: seq<bool>)
    ensures passed == [true, true, true, true, true, false, true]
  {
    var t := new LoginThrottle();
    passed := [];
    var i := 0;
    while i < 6
      invariant 0 <= i <= 6
      invariant t.Attempts(key) == (if i <= 5 then i else 5)
      invariant |passed| == i && forall k :: 0 <= k < i ==> passed[k] == (k < 5)
    {
      var r, ok := t.Hit(key, availableIn, next);
      passed := passed + [ok];
      i := i + 1;
    }
    assert passed == [true, true, true, true, true, false];
    t.Expire(key);
    var r, ok := t.Hit(key, availableIn, next);
    passed := passed + [ok];
  }

  /**
   * Two e-mails whose keys clean to the same cache key share one counter:
   * once the first has used up its attempts, the second is refused too.
   */
  method CleanedKeysShareCounter(t: LoginThrottle, e1: Option<string>, e2: Option<string>, ip: string,
                                 clean: string -> string, availableIn: nat, next: Response)
    returns (r: Response, forwarded: bool)
    requires clean(ResolveKey(e1, ip)) == clean(ResolveKey(e2, ip))
    requires t.Attempts(clean(ResolveKey(e1, ip))) == MaxAttempts
    modifies t
    ensures !forwarded && r == ThrottledResponse(availableIn) && t.hits == old(t.hits)
  {
    r, forwarded := t.Handle(e2, ip, clean, availableIn, next);
  }
}
