/**
 * The distributed token bucket of internal/ratelimit and the 429 answer of
 * internal/http/ratelimit.go. Time is Redis's own clock in seconds; tokens are reals.
 */
module TokenBucket {
  import opened Basics

  /** Startup refuses anything below one (cmd/api/main.go). */
  datatype Config = Config(burst: int, rps: int) {
    ghost predicate Valid() {
      burst >= 1 && rps >= 1
    }
  }

  /** The hash stored at a bucket key. */
  datatype Bucket = Bucket(tokens: real, ts: real)

  /** A bucket key as Redis holds it: the hash and the millisecond it expires at. */
  datatype Key = Absent | Present(bucket: Bucket, expireAtMs: int)

  datatype Decision = Decision(allowed: bool, retryMs: int)

  function Min(a: real, b: real): real {
    if a <= b then a else b
  }

  function Ceil(x: real): (c: int)
    ensures c as real - 1.0 < x <= c as real
  {
    -((-x).Floor)
  }

  /** Redis keeps expiry times in whole milliseconds. */
  function Millis(now: real): int {
    (now * 1000.0).Floor
  }

  function IdleMs(cfg: Config): int
    requires cfg.Valid()
  {
    Ceil(cfg.burst as real / cfg.rps as real * 1000.0) + 1000
  }

  /** Tokens that flow in between two instants. */
  function Inflow(cfg: Config, from: real, to: real): real {
    (to - from) * cfg.rps as real
  }

  /** Seconds until a bucket at `level` holds a whole token. */
  function Wait(cfg: Config, level: real): real
    requires cfg.Valid()
  {
    (1.0 - level) / cfg.rps as real
  }

  /** The tokens a bucket holds at `now`, refilled since it was last touched. */
  function Level(cfg: Config, b: Bucket, now: real): real {
    Min(cfg.burst as real, b.tokens + Inflow(cfg, b.ts, now))
  }

  /** Refill, check and take on a bucket that exists. */
  function Take(cfg: Config, b: Bucket, now: real): (Bucket, Decision)
    requires cfg.Valid()
  {
    var level := Level(cfg, b, now);
    if level >= 1.0 then (Bucket(level - 1.0, now), Decision(true, 0))
    else (Bucket(level, now), Decision(false, Ceil(Wait(cfg, level) * 1000.0)))
  }

  function Full(cfg: Config, now: real): Bucket {
    Bucket(cfg.burst as real, now)
  }

  function Current(cfg: Config, k: Key, now: real): Bucket {
    if k.Absent? || Millis(now) >= k.expireAtMs then Full(cfg, now) else k.bucket
  }

  /** The whole script on one key. */
  function Script(cfg: Config, k: Key, now: real): (Key, Decision)
    requires cfg.Valid()
  {
    var (b, d) := Take(cfg, Current(cfg, k, now), now);
    (Present(b, Millis(now) + IdleMs(cfg)), d)
  }

  /** The shared Redis: hashes and expiry times, one pair per rate-limited client. */
  class Redis {
    var hashes: map<string, Bucket>
    var expiry: map<string, int>

    ghost predicate Valid()
      reads this
    {
      hashes.Keys == expiry.Keys
    }

    ghost function KeyAt(key: string): Key
      reads this
      requires Valid()
    {
      if key in hashes then Present(hashes[key], expiry[key]) else Absent
    }

    constructor ()
      ensures Valid() && hashes == map[]
    {
      hashes, expiry := map[], map[];
    }

    /** The script's reassignments, in its order. `now` is what TIME answers. */
    method Allow(cfg: Config, key: string, now: real) returns (allowed: bool, retryMs: int)
      requires Valid() && cfg.Valid()
      modifies this
      ensures Valid()
      ensures (KeyAt(key), Decision(allowed, retryMs)) == Script(cfg, old(KeyAt(key)), now)
      ensures allowed ==> retryMs == 0
      ensures forall other :: other != key ==> KeyAt(other) == old(KeyAt(other))
    {
      var tokens, ts := cfg.burst as real, now;
      if key in hashes && Millis(now) < expiry[key] {
        tokens, ts := hashes[key].tokens, hashes[key].ts;
      }
      tokens := Min(cfg.burst as real, tokens + Inflow(cfg, ts, now));
      allowed, retryMs := false, 0;
      if tokens >= 1.0 {
        allowed := true;
        tokens := tokens - 1.0;
      } else {
        retryMs := Ceil(Wait(cfg, tokens) * 1000.0);
      }
      hashes := hashes[key := Bucket(tokens, now)];
      expiry := expiry[key := Millis(now) + IdleMs(cfg)];
    }
  }

  /** Whole seconds for the Retry-After header, never less than one. */
  function RetryAfterSeconds(retryMs: int): (s: int)
    ensures s >= 1 && s * 1000 >= retryMs
    ensures s > 1 ==> (s - 1) * 1000 < retryMs
  {
    var s := (retryMs + 999) / 1000;
    if s > 1 then s else 1
  }

  datatype Response = Passed | TooManyRequests(retryAfter: int)

  /** RateLimitMiddleware: an error from Redis lets the request through, whether or not the script ran. */
  method Serve(redis: Redis, cfg: Config, client: string, now: real, trip: Trip) returns (r: Response)
    requires redis.Valid() && cfg.Valid()
    modifies redis
    ensures redis.Valid()
    ensures !trip.Applied() ==> unchanged(redis)
    ensures var (k, d) := Script(cfg, old(redis.KeyAt(client)), now);
            && (trip.Applied() ==> redis.KeyAt(client) == k)
            && r == (if !trip.Answered? || d.allowed then Passed else TooManyRequests(RetryAfterSeconds(d.retryMs)))
    ensures forall other :: other != client ==> redis.KeyAt(other) == old(redis.KeyAt(other))
  {
    if trip.Unsent? {
      return Passed;
    }
    var allowed, retryMs := redis.Allow(cfg, client, now);
    if trip.Answered? && !allowed {
      return TooManyRequests(RetryAfterSeconds(retryMs));
    }
    r := Passed;
  }
}
