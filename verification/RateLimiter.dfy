/** The rate-limit middleware: which bucket a request counts in, and whether it is over the limit. */
module RateLimiter {
  import opened Common
  import opened Text
  import opened TtlStore
  import opened FixedWindow

  /** The request headers and peer address the limiter looks at. */
  datatype HttpRequest = HttpRequest(apiKey: Option<string>, forwardedFor: Option<string>, host: Option<string>)

  datatype Limits = Limits(perMinute: nat, burst: nat)

  const KEY_PREFIX := "vt:rl:key:"
  const IP_PREFIX := "vt:rl:ip:"

  /** The text before the first `sep`: the first field of a split. */
  function FirstField(s: string, sep: char): string {
    if s == "" || s[0] == sep then "" else [s[0]] + FirstField(s[1..], sep)
  }

  /** It is what stood before the first separator when fields are joined. */
  lemma {:induction false} FirstFieldOfJoin(first: string, rest: string, sep: char)
    requires sep !in first
    ensures FirstField(first + [sep] + rest, sep) == first && FirstField(first, sep) == first
  {
    if first == "" {
    } else {
      FirstFieldOfJoin(first[1..], rest, sep);
      assert (first + [sep] + rest)[1..] == first[1..] + [sep] + rest;
      assert first == [first[0]] + first[1..];
    }
  }

  function ClientIp(r: HttpRequest): string {
    if Given(r.forwardedFor) then Strip(FirstField(r.forwardedFor.value, ','))
    else if r.host.Some? then r.host.value else "unknown"
  }

  /** The client's address: what stood before the first comma of a forwarded list, trimmed; without one, the peer. */
  lemma {:induction false} ClientIpIs(r: HttpRequest, first: string, rest: string)
    requires ',' !in first
    ensures r.forwardedFor == Some(first + "," + rest) ==> ClientIp(r) == Strip(first)
    ensures r.forwardedFor == Some(first) && first != "" ==> ClientIp(r) == Strip(first)
    ensures !Given(r.forwardedFor) ==> ClientIp(r) == if r.host.Some? then r.host.value else "unknown"
  {
    FirstFieldOfJoin(first, rest, ',');
    hide Strip, FirstField;
  }

  function First20(s: string): string { if |s| <= 20 then s else s[..20] }

  function Bucket(r: HttpRequest): string {
    if Given(r.apiKey) then KEY_PREFIX + First20(r.apiKey.value) else IP_PREFIX + ClientIp(r)
  }

  function LimitFor(limits: Limits, r: HttpRequest): nat {
    if Given(r.apiKey) then limits.perMinute else limits.burst
  }

  function LimiterTouch(r: HttpRequest, now: int): Touch {
    Touch(now, Bucket(r), WINDOW, true)
  }

  /** The two texts are the same as far as their first `n` characters. */
  ghost predicate AgreeOn(a: string, b: string, n: nat) {
    && (|a| < n || |b| < n ==> |a| == |b|)
    && forall i :: 0 <= i < n && i < |a| && i < |b| ==> a[i] == b[i]
  }

  lemma {:induction false} FirstAgree(a: string, b: string)
    ensures First20(a) == First20(b) <==> AgreeOn(a, b, 20)
  {
    var x, y := First20(a), First20(b);
    assert forall i :: 0 <= i < 20 && i < |a| ==> i < |x| && x[i] == a[i];
    assert forall i :: 0 <= i < 20 && i < |b| ==> i < |y| && y[i] == b[i];
  }

  /**
   Two requests share a bucket exactly when both carry keys agreeing on 20 characters, or neither
   does and the addresses agree.
   */
  lemma {:induction false} BucketsShared(r: HttpRequest, s: HttpRequest)
    ensures Bucket(r) == Bucket(s) <==>
      if Given(r.apiKey) then Given(s.apiKey) && AgreeOn(r.apiKey.value, s.apiKey.value, 20)
      else !Given(s.apiKey) && ClientIp(r) == ClientIp(s)
  {
    var p, q := Bucket(r), Bucket(s);
    if Given(r.apiKey) && Given(s.apiKey) { FirstAgree(r.apiKey.value, s.apiKey.value); }
    assert Given(r.apiKey) ==> p[|KEY_PREFIX|..] == First20(r.apiKey.value) && p[6] == 'k';
    assert Given(s.apiKey) ==> q[|KEY_PREFIX|..] == First20(s.apiKey.value) && q[6] == 'k';
    assert !Given(r.apiKey) ==> p[|IP_PREFIX|..] == ClientIp(r) && p[6] == 'i';
    assert !Given(s.apiKey) ==> q[|IP_PREFIX|..] == ClientIp(s) && q[6] == 'i';
  }

  class RateLimitMiddleware {
    const redis: Redis
    const limits: Limits

    constructor (redis: Redis, limits: Limits)
      ensures this.redis == redis && this.limits == limits
    {
      this.redis, this.limits := redis, limits;
    }

    /** True when the request is over its limit; the counter moves either way. */
    method CheckRateLimit(r: HttpRequest, now: int) returns (exceeded: bool)
      modifies redis
      ensures redis.store == Touched(old(redis.store), LimiterTouch(r, now))
      ensures exceeded <==> Count(old(redis.store), Bucket(r), now) + 1 > LimitFor(limits, r)
    {
      var key, limit;
      if Given(r.apiKey) {
        var apiKey := r.apiKey.value;
        key := KEY_PREFIX + (if |apiKey| > 20 then apiKey[..20] else apiKey);
        limit := limits.perMinute;
      } else {
        key := IP_PREFIX + ClientIp(r);
        limit := limits.burst;
      }
      var current := redis.Incr(key, now);
      if current == 1 {
        redis.Expire(key, WINDOW, now);
      }
      return current > limit;
    }
  }
}
