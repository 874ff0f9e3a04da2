/** The per-device, per-direction token bucket (node-agent/cmd/local_bandwidth.go), in
    exact arithmetic: rates in bytes per second, time in seconds. */
module LocalBandwidth {
  import opened Base
  import opened Sets

  const MAX_CHUNK: int := 32768

  datatype Direction = Upload | Download

  /** The Go key is the device id with ":u" or ":d" appended. */
  datatype Key = Key(id: string, direction: Direction)

  datatype Bucket = Bucket(rate: real, burst: real, tokens: real, last: real)

  datatype Response = Allowed | Retry(afterMs: int) | Denied

  datatype Limiter = Limiter(rates: map<string, int>, known: bool, buckets: map<Key, Bucket>)

  function Max(a: real, b: real): real { if a < b then b else a }

  function Min(a: real, b: real): real { if a < b then a else b }

  /** Decimal Mbps to bytes per second. */
  function BucketRate(mbps: int): real { mbps as real * 125000.0 }

  function BurstOf(rate: real): real { Max(MAX_CHUNK as real, Min(rate / 10.0, 262144.0)) }

  function Ceil(x: real): int { -((-x).Floor) }

  function FullBucket(mbps: int, now: real): Bucket {
    Bucket(BucketRate(mbps), BurstOf(BucketRate(mbps)), BurstOf(BucketRate(mbps)), now)
  }

  /** A clock that stands still or runs backwards refills nothing. */
  function Refill(b: Bucket, now: real): Bucket {
    if now > b.last then b.(tokens := Min(b.burst, b.tokens + (now - b.last) * b.rate), last := now) else b
  }

  function WaitMs(b: Bucket, size: int): int
    requires b.rate > 0.0
  {
    var wait := Ceil((size as real - b.tokens) * 1000.0 / b.rate);
    var floor := if wait > 1 then wait else 1;
    if floor < 1000 then floor else 1000
  }

  /** The size is covered by what the bucket holds now. */
  predicate Fits(b: Bucket, now: real, size: int) { Refill(b, now).tokens >= size as real }

  /** The bucket after a request, and the answer to it. */
  function Spent(b: Bucket, now: real, size: int): Bucket {
    var r := Refill(b, now);
    if Fits(b, now, size) then r.(tokens := r.tokens - size as real) else r
  }

  function Answer(b: Bucket, now: real, size: int): Response
    requires b.rate > 0.0
  {
    if Fits(b, now, size) then Allowed else Retry(WaitMs(Refill(b, now), size))
  }

  /** The device has a speed limit. */
  predicate Metered(l: Limiter, id: string) { l.known && id in l.rates && l.rates[id] != 0 }

  function BucketFor(l: Limiter, key: Key, now: real): Bucket
    requires Metered(l, key.id)
  {
    if key in l.buckets then l.buckets[key] else FullBucket(l.rates[key.id], now)
  }

  ghost predicate Valid(l: Limiter) {
    && (forall id | id in l.rates :: l.rates[id] >= 0)
    && (forall k | k in l.buckets ::
          && k.id in l.rates && l.rates[k.id] > 0 && l.known
          && l.buckets[k].rate == BucketRate(l.rates[k.id]) && l.buckets[k].burst == BurstOf(l.buckets[k].rate))
  }

  /** Rates are not negative, and buckets have one. */
  ghost predicate Positive(l: Limiter) {
    (forall id | id in l.rates :: l.rates[id] >= 0) && (forall k | k in l.buckets :: l.buckets[k].rate > 0.0)
  }

  function Permitted(l: Limiter, key: Key, now: real, size: int): Limiter {
    if !Metered(l, key.id) then l else l.(buckets := l.buckets[key := Spent(BucketFor(l, key, now), now, size)])
  }

  function PermitAnswer(l: Limiter, key: Key, now: real, size: int): Response
    requires Positive(l)
  {
    if !l.known || key.id !in l.rates then Denied
    else if l.rates[key.id] == 0 then Allowed
    else Answer(BucketFor(l, key, now), now, size)
  }

  function Clamped(rates: map<string, int>): map<string, int> {
    map id | id in rates :: if rates[id] < 0 then 0 else rates[id]
  }

  /** A bucket survives a new table exactly when its device keeps its rate. */
  predicate Survives(next: map<string, int>, k: Key, b: Bucket) {
    k.id in next && BucketRate(next[k.id]) == b.rate
  }

  function WithRates(l: Limiter, rates: Option<map<string, int>>): Limiter {
    match rates
    case None => Limiter(map[], false, map[])
    case Some(table) =>
      var next := Clamped(table);
      Limiter(next, true, map k | k in l.buckets && Survives(next, k, l.buckets[k]) :: l.buckets[k])
  }

  lemma ValidIsPositive(l: Limiter)
    requires Valid(l)
    ensures Positive(l)
  {
  }

  // ----- The objects -----

  class TokenBucket {
    var rate: real
    var burst: real
    var tokens: real
    var last: real

    constructor (b: Bucket)
      ensures State() == b
    {
      rate, burst, tokens, last := b.rate, b.burst, b.tokens, b.last;
    }

    function State(): Bucket
      reads this
    {
      Bucket(rate, burst, tokens, last)
    }

    method Take(now: real, size: int) returns (r: Response)
      requires rate > 0.0
      modifies this
      ensures State() == Spent(old(State()), now, size) && r == Answer(old(State()), now, size)
    {
      var elapsed := now - last;
      if elapsed > 0.0 {
        tokens := Min(burst, tokens + elapsed * rate);
        last := now;
      }
      var need := size as real;
      if tokens >= need {
        tokens := tokens - need;
        return Allowed;
      }
      return Retry(WaitMs(State(), size));
    }
  }

  class LocalLimiter {
    var rates: map<string, int>
    var known: bool
    var buckets: map<Key, TokenBucket>

    /** Every key has its own bucket object. */
    ghost predicate Owned()
      reads this
    {
      forall j, k | j in buckets && k in buckets && buckets[j] == buckets[k] :: j == k
    }

    ghost function Buckets(): map<Key, Bucket>
      reads this, buckets.Values
    {
      map k | k in buckets :: buckets[k].State()
    }

    ghost function State(): Limiter
      reads this, buckets.Values
    {
      Limiter(rates, known, Buckets())
    }

    constructor ()
      ensures Owned() && State() == Limiter(map[], false, map[]) && Valid(State())
    {
      rates, known, buckets := map[], false, map[];
    }

    /** Drops the buckets whose device left or whose rate changed. */
    method DropStale(next: map<string, int>)
      requires Owned()
      modifies `buckets
      ensures Owned()
      ensures Buckets() == map k | k in old(Buckets()) && Survives(next, k, old(Buckets())[k]) :: old(Buckets())[k]
    {
      var all := buckets;
      var done: set<Key> := {};
      while all.Keys - done != {}
        invariant done <= all.Keys && buckets.Keys <= all.Keys && all.Keys - done <= buckets.Keys
        invariant forall k | k in buckets :: buckets[k] == all[k]
        invariant forall k | k in done :: k in buckets <==> Survives(next, k, all[k].State())
      {
        var key :| key in all.Keys - done;
        done := done + {key};
        var bucket := buckets[key];
        if key.id !in next || BucketRate(next[key.id]) != bucket.rate {
          buckets := buckets - {key};
        }
      }
      NothingLeft(all.Keys, done);
    }

    method SetRates(table: Option<map<string, int>>)
      requires Owned()
      modifies this
      ensures Owned() && State() == WithRates(old(State()), table)
    {
      if table == None {
        rates, known, buckets := map[], false, map[];
        return;
      }
      var next := Clamped(table.value);
      DropStale(next);
      rates, known := next, true;
    }

    method BucketOf(key: Key, now: real) returns (bucket: TokenBucket)
      requires Owned() && Metered(State(), key.id)
      modifies `buckets
      ensures Owned() && key in buckets && buckets[key] == bucket
      ensures bucket in old(buckets).Values || fresh(bucket)
      ensures forall b | b in buckets.Values :: b in old(buckets).Values || b == bucket
      ensures bucket.State() == BucketFor(old(State()), key, now)
      ensures Buckets() == old(Buckets())[key := bucket.State()]
    {
      if key !in buckets {
        bucket := new TokenBucket(FullBucket(rates[key.id], now));
        buckets := buckets[key := bucket];
      } else {
        bucket := buckets[key];
        assert buckets == buckets[key := bucket];
      }
    }

    method Permit(id: string, direction: Direction, now: real, size: int) returns (r: Response)
      requires Owned() && Positive(State())
      modifies this`buckets, buckets.Values
      ensures Owned()
      ensures State() == Permitted(old(State()), Key(id, direction), now, size)
      ensures r == PermitAnswer(old(State()), Key(id, direction), now, size)
    {
      if !known || id !in rates {
        return Denied;
      }
      if rates[id] == 0 {
        return Allowed;
      }
      var key := Key(id, direction);
      assert key in buckets ==> State().buckets[key] == buckets[key].State();
      r := PermitMetered(key, now, size);
    }

    method PermitMetered(key: Key, now: real, size: int) returns (r: Response)
      requires Owned() && Metered(State(), key.id) && rates[key.id] > 0
      requires key in buckets ==> buckets[key].rate > 0.0
      modifies this`buckets, buckets.Values
      ensures Owned() && rates == old(rates) && known == old(known)
      ensures Buckets() == old(Buckets())[key := Spent(old(BucketFor(State(), key, now)), now, size)]
      ensures old(BucketFor(State(), key, now)).rate > 0.0
      ensures r == Answer(old(BucketFor(State(), key, now)), now, size)
    {
      var bucket := BucketOf(key, now);
      r := TakeFrom(key, bucket, now, size);
    }

    method TakeFrom(key: Key, bucket: TokenBucket, now: real, size: int) returns (r: Response)
      requires Owned() && key in buckets && buckets[key] == bucket && bucket.rate > 0.0
      modifies bucket
      ensures Owned() && Buckets() == old(Buckets())[key := Spent(old(bucket.State()), now, size)]
      ensures r == Answer(old(bucket.State()), now, size)
    {
      ghost var before := Buckets();
      r := bucket.Take(now, size);
      forall k | k in buckets && k != key ensures buckets[k].State() == before[k] {
        assert buckets[k] != bucket;
      }
    }
  }

  lemma WithRatesIsValid(l: Limiter, table: Option<map<string, int>>)
    requires Valid(l)
    ensures Valid(WithRates(l, table))
  {
    if table.Some? {
      var r := WithRates(l, table);
      forall k | k in r.buckets ensures r.rates[k.id] > 0 && r.buckets[k].rate == BucketRate(r.rates[k.id]) {
        assert l.buckets[k].rate >= 125000.0;
      }
    }
  }

  lemma PermittedIsValid(l: Limiter, key: Key, now: real, size: int)
    requires Valid(l)
    ensures Positive(l) && Valid(Permitted(l, key, now, size))
  {
  }
}
