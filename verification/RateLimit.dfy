/**
 * The token-bucket limiter of backend/internal/ratelimit/ratelimit.go, with time in seconds and tokens as reals.
 * A request's clock and the clock read when a bucket is created are inputs.
 */
module RateLimit {

  const DEFAULT_CAPACITY: real := 60.0
  const DEFAULT_RATE: real := 20.0

  // ---- one bucket as a value ----

  datatype State = State(tokens: real, capacity: real, rate: real, last: real)

  function MinReal(a: real, b: real): real { if a <= b then a else b }

  /** Tokens that flow in over a stretch of time; negative when the clock ran backwards. */
  function Flow(seconds: real, rate: real): real { seconds * rate }

  /** Tokens at hand at a given time, before any is taken. */
  function Refilled(b: State, now: real): real {
    MinReal(b.tokens + Flow(now - b.last, b.rate), b.capacity)
  }

  predicate Admits(b: State, now: real) { Refilled(b, now) >= 1.0 }

  function After(b: State, now: real): State {
    b.(tokens := if Admits(b, now) then Refilled(b, now) - 1.0 else Refilled(b, now), last := now)
  }

  /** How long a rejected caller is told to wait. */
  function RetryAfter(b: State, now: real): real {
    if Admits(b, now) then 0.0
    else if b.rate <= 0.0 then 1.0
    else (1.0 - Refilled(b, now)) / b.rate
  }

  /** The Retry-After header: the whole seconds of the retry time, or one if there are none. */
  function RetryHeader(retry: real): (header: int)
    ensures header as real <= (if retry >= 1.0 then retry else 1.0) < header as real + 1.0
  {
    var secs := if retry >= 0.0 then retry.Floor else -(-retry).Floor;
    if secs < 1 then 1 else secs
  }

  class Bucket {
    var tokens: real
    const capacity: real
    const refillRate: real
    var last: real

    constructor (capacity: real, refillRate: real, now: real)
      ensures Value() == State(capacity, capacity, refillRate, now)
    {
      this.tokens := capacity;
      this.capacity := capacity;
      this.refillRate := refillRate;
      this.last := now;
    }

    function Value(): State
      reads this
    {
      State(tokens, capacity, refillRate, last)
    }

    method Take(now: real) returns (ok: bool, retryAfter: real)
      modifies this
      ensures ok == Admits(old(Value()), now) && retryAfter == RetryAfter(old(Value()), now)
      ensures Value() == After(old(Value()), now)
    {
      var elapsed := now - last;
      tokens := tokens + Flow(elapsed, refillRate);
      if tokens > capacity {
        tokens := capacity;
      }
      last := now;
      assert tokens == Refilled(old(Value()), now);
      if tokens >= 1.0 {
        tokens := tokens - 1.0;
        return true, 0.0;
      }
      var deficit := 1.0 - tokens;
      if refillRate <= 0.0 {
        return false, 1.0;
      }
      return false, deficit / refillRate;
    }
  }

  // ---- the limiter as a value ----

  datatype Key = Key(client: string, route: string)

  /** One request: its bucket, its clock, and the clock a bucket made for it would be created with. */
  datatype Request = Request(key: Key, now: real, created: real)

  datatype Limits = Limits(capacity: real, rate: real, buckets: map<Key, State>) {

    predicate Valid() {
      forall k :: k in buckets ==> buckets[k].capacity == capacity && buckets[k].rate == rate
    }

    function Find(r: Request): State {
      if r.key in buckets then buckets[r.key] else State(capacity, capacity, rate, r.created)
    }

    predicate Ok(r: Request) { Admits(Find(r), r.now) }

    function Step(r: Request): (next: Limits)
      ensures Valid() ==> next.Valid()
    {
      this.(buckets := buckets[r.key := After(Find(r), r.now)])
    }
  }

  function Decisions(s: Limits, run: seq<Request>): (ds: seq<bool>)
    ensures |ds| == |run|
    decreases |run|
  {
    if run == [] then [] else [s.Ok(run[0])] + Decisions(s.Step(run[0]), run[1..])
  }

  class Limiter {
    const capacity: real
    const refillRate: real
    var buckets: map<Key, Bucket>

    ghost predicate Valid()
      reads this, buckets.Values
    {
      && (forall k :: k in buckets ==> buckets[k].capacity == capacity && buckets[k].refillRate == refillRate)
      && (forall k, l :: k in buckets && l in buckets && k != l ==> buckets[k] != buckets[l])
    }

    ghost function Value(): Limits
      reads this, buckets.Values
    {
      Limits(capacity, refillRate, map k | k in buckets :: buckets[k].Value())
    }

    /** Options that are not positive fall back to the defaults, so capacity and rate always are. */
    constructor (optCapacity: real, optRefillPerSecond: real)
      ensures Valid() && buckets == map[]
      ensures capacity == (if optCapacity <= 0.0 then DEFAULT_CAPACITY else optCapacity) > 0.0
      ensures refillRate == (if optRefillPerSecond <= 0.0 then DEFAULT_RATE else optRefillPerSecond) > 0.0
    {
      capacity := if optCapacity <= 0.0 then DEFAULT_CAPACITY else optCapacity;
      refillRate := if optRefillPerSecond <= 0.0 then DEFAULT_RATE else optRefillPerSecond;
      buckets := map[];
    }

    method GetOrCreate(k: Key, now: real) returns (b: Bucket)
      requires Valid()
      modifies this`buckets
      ensures Valid() && k in buckets && buckets[k] == b
      ensures b.Value() == old(Value()).Find(Request(k, now, now))
      ensures buckets == old(buckets)[k := b]
      ensures if k in old(buckets) then b == old(buckets)[k] else fresh(b)
      ensures forall l :: l in old(buckets) ==> buckets[l].Value() == old(buckets[l].Value())
    {
      if k in buckets {
        return buckets[k];
      }
      b := new Bucket(capacity, refillRate, now);
      buckets := buckets[k := b];
    }

    /** What the middleware decides for a request that is not exempt: admit it, or the seconds of Retry-After. */
    method Serve(r: Request) returns (ok: bool, header: int)
      requires Valid()
      modifies this`buckets, buckets.Values
      ensures Valid()
      ensures ok == old(Value()).Ok(r)
      ensures !ok ==> header == RetryHeader(RetryAfter(old(Value()).Find(r), r.now))
      ensures Value() == old(Value()).Step(r)
    {
      var b := GetOrCreate(r.key, r.created);
      assert r.key in old(buckets) ==> b in old(buckets).Values;
      var retry;
      ok, retry := b.Take(r.now);
      assert Value().buckets == old(Value()).Step(r).buckets;
      header := 0;
      if !ok {
        var secs := if retry >= 0.0 then retry.Floor else -(-retry).Floor;
        header := if secs < 1 then 1 else secs;
      }
    }
  }
}
