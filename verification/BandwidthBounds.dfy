/** What the token bucket guarantees over whole runs of Permit and SetRates. */
module BandwidthBounds {
  import opened Base
  import opened LocalBandwidth

  datatype Op = Permit(key: Key, now: real, size: int) | SetRates(table: Option<map<string, int>>)

  function Step(l: Limiter, op: Op): Limiter
    requires Valid(l)
  {
    match op
    case Permit(key, now, size) => Permitted(l, key, now, size)
    case SetRates(table) => WithRates(l, table)
  }

  /** The bytes one operation lets through for a key: those of a request answered Allowed. */
  function Bytes(l: Limiter, op: Op, key: Key): int
    requires Valid(l)
  {
    ValidIsPositive(l);
    if op.Permit? && op.key == key && PermitAnswer(l, key, op.now, op.size) == Allowed then op.size else 0
  }

  /** For a device with a limit those are the requests its bucket covers. */
  lemma BytesAreCovered(l: Limiter, op: Op, key: Key)
    requires Valid(l) && Metered(l, key.id)
    ensures Bytes(l, op, key) ==
            if op.Permit? && op.key == key && Fits(BucketFor(l, key, op.now), op.now, op.size) then op.size else 0
  {
    ValidIsPositive(l);
  }

  lemma StepIsValid(l: Limiter, op: Op)
    requires Valid(l)
    ensures Valid(Step(l, op))
  {
    match op
    case Permit(key, now, size) => PermittedIsValid(l, key, now, size);
    case SetRates(table) => WithRatesIsValid(l, table);
  }

  function After(l: Limiter, ops: seq<Op>): (r: Limiter)
    requires Valid(l)
    ensures Valid(r)
    decreases |ops|
  {
    if ops == [] then l
    else
      StepIsValid(l, ops[0]);
      After(Step(l, ops[0]), ops[1..])
  }

  function Total(l: Limiter, ops: seq<Op>, key: Key): int
    requires Valid(l)
    decreases |ops|
  {
    if ops == [] then 0
    else
      StepIsValid(l, ops[0]);
      Bytes(l, ops[0], key) + Total(Step(l, ops[0]), ops[1..], key)
  }

  /** The operations leave the device its rate of mbps and ask for no negative size. */
  ghost predicate Steady(ops: seq<Op>, key: Key, mbps: int) {
    forall i | 0 <= i < |ops| ::
      match ops[i]
      case Permit(k, _, size) => k == key ==> size >= 0
      case SetRates(table) => table.Some? && key.id in table.value && table.value[key.id] == mbps
  }

  ghost predicate HasRate(l: Limiter, key: Key, mbps: int) {
    Valid(l) && l.known && key.id in l.rates && l.rates[key.id] == mbps && mbps >= 1
  }

  /** The level of a bucket stays between empty and its burst. */
  ghost predicate Level(b: Bucket) { 0.0 <= b.tokens <= b.burst }

  /** What a bucket holds, less all that its clock has let flow in so far. */
  function Credit(b: Bucket): real { b.tokens - b.rate * b.last }

  /** The clock only moves forward, the level stays, and refilling earns no credit. */
  ghost predicate Pays(b: Bucket, bytes: real, r: Bucket) {
    && Level(r) && r.rate == b.rate && r.burst == b.burst && r.last >= b.last
    && bytes + Credit(r) <= Credit(b)
  }

  lemma Flow(from: real, to: real, rate: real) returns (amount: real)
    requires rate > 0.0
    ensures amount == (to - from) * rate
    ensures amount == rate * to - rate * from
    ensures to > from ==> amount > 0.0
    ensures to <= from ==> amount <= 0.0
  {
    amount := (to - from) * rate;
  }

  lemma Refilled(b: Bucket, now: real)
    requires now > b.last
    ensures Refill(b, now) == b.(tokens := Min(b.burst, b.tokens + (now - b.last) * b.rate), last := now)
  {
  }

  lemma RefillKeeps(b: Bucket, now: real)
    requires Level(b) && b.rate > 0.0
    ensures Pays(b, 0.0, Refill(b, now))
  {
    if now > b.last {
      var inflow := Flow(b.last, now, b.rate);
      Refilled(b, now);
      TakesIn(b, now, inflow);
    }
  }

  lemma TakesIn(b: Bucket, now: real, inflow: real)
    requires Level(b) && now > b.last && inflow > 0.0 && inflow == b.rate * now - b.rate * b.last
    ensures Pays(b, 0.0, b.(tokens := Min(b.burst, b.tokens + inflow), last := now))
  {
  }

  lemma SpendKeeps(b: Bucket, now: real, size: int)
    requires Level(b) && b.rate > 0.0 && size >= 0
    ensures Pays(b, if Fits(b, now, size) then size as real else 0.0, Spent(b, now, size))
  {
    RefillKeeps(b, now);
  }

  /** A bucket survives SetRates, untouched, exactly when its device keeps its rate. */
  lemma SameRateNeverRefills(l: Limiter, table: map<string, int>, key: Key)
    requires Valid(l) && key in l.buckets
    ensures var r := WithRates(l, Some(table));
            if key.id in table && table[key.id] == l.rates[key.id] then
                 key in r.buckets && r.buckets[key] == l.buckets[key]
            else key !in r.buckets
  {
    if key.id in table {
      var mbps := Clamped(table)[key.id];
      assert BucketRate(mbps) == BucketRate(l.rates[key.id]) <==> mbps == l.rates[key.id];
    }
  }

  lemma StepKeepsRate(l: Limiter, op: Op, key: Key, mbps: int)
    requires HasRate(l, key, mbps) && Steady([op], key, mbps)
    ensures HasRate(Step(l, op), key, mbps)
  {
    assert [op][0] == op;
    StepIsValid(l, op);
  }

  /** One steady step with a bucket: it pays for every byte. */
  lemma StepPays(l: Limiter, op: Op, key: Key, mbps: int)
    requires HasRate(l, key, mbps) && Steady([op], key, mbps) && key in l.buckets && Level(l.buckets[key])
    ensures key in Step(l, op).buckets
    ensures Pays(l.buckets[key], Bytes(l, op, key) as real, Step(l, op).buckets[key])
  {
    assert [op][0] == op;
    ValidIsPositive(l);
    match op
    case Permit(k, now, size) =>
      if k == key {
        SpendKeeps(l.buckets[key], now, size);
      }
    case SetRates(table) =>
      SameRateNeverRefills(l, table.value, key);
  }

  /** One steady step without a bucket: none appears and nothing passes, or the step is a
      Permit on the key and a full bucket pays for it. */
  lemma FirstStepPays(l: Limiter, op: Op, key: Key, mbps: int)
    requires HasRate(l, key, mbps) && Steady([op], key, mbps) && key !in l.buckets
    ensures if key in Step(l, op).buckets then
              op.Permit? && op.key == key
              && Pays(FullBucket(mbps, op.now), Bytes(l, op, key) as real, Step(l, op).buckets[key])
            else Bytes(l, op, key) == 0 && !(op.Permit? && op.key == key)
  {
    assert [op][0] == op;
    ValidIsPositive(l);
    if op.Permit? && op.key == key {
      SpendKeeps(FullBucket(mbps, op.now), op.now, op.size);
    }
  }

  /** From a state with a bucket: over any steady run it pays for every byte. */
  lemma {:induction false} RunPays(l: Limiter, ops: seq<Op>, key: Key, mbps: int)
    requires HasRate(l, key, mbps) && Steady(ops, key, mbps) && key in l.buckets && Level(l.buckets[key])
    ensures key in After(l, ops).buckets
    ensures Pays(l.buckets[key], Total(l, ops, key) as real, After(l, ops).buckets[key])
    decreases |ops|
  {
    if ops != [] {
      assert Steady([ops[0]], key, mbps);
      StepKeepsRate(l, ops[0], key, mbps);
      StepPays(l, ops[0], key, mbps);
      RunPays(Step(l, ops[0]), ops[1..], key, mbps);
      PaysTwice(l.buckets[key], Bytes(l, ops[0], key) as real, Step(l, ops[0]).buckets[key],
                Total(Step(l, ops[0]), ops[1..], key) as real, After(l, ops).buckets[key]);
    }
  }

  lemma PaysTwice(a: Bucket, x: real, b: Bucket, y: real, c: Bucket)
    requires Pays(a, x, b) && Pays(b, y, c)
    ensures Pays(a, x + y, c)
  {
  }

  /** The clock reading the bucket of a key starts from. */
  function StartOf(l: Limiter, ops: seq<Op>, key: Key): real {
    if key in l.buckets then l.buckets[key].last
    else if ops == [] then 0.0
    else if ops[0].Permit? && ops[0].key == key then ops[0].now
    else StartOf(l, ops[1..], key)
  }

  /** The advance of the bucket's own clock over the run, 0 while there is no bucket. */
  function Advance(l: Limiter, ops: seq<Op>, key: Key): real
    requires Valid(l)
  {
    if key in After(l, ops).buckets then After(l, ops).buckets[key].last - StartOf(l, ops, key) else 0.0
  }

  /** The bound itself. */
  ghost predicate Bounded(bytes: real, rate: real, advance: real) {
    advance >= 0.0 && bytes <= BurstOf(rate) + rate * advance
  }

  lemma WindowWithBucket(l: Limiter, ops: seq<Op>, key: Key, mbps: int)
    requires HasRate(l, key, mbps) && Steady(ops, key, mbps) && key in l.buckets && Level(l.buckets[key])
    ensures Bounded(Total(l, ops, key) as real, BucketRate(mbps), Advance(l, ops, key))
  {
    RunPays(l, ops, key, mbps);
    Conclude(l.buckets[key], Total(l, ops, key) as real, After(l, ops).buckets[key], BucketRate(mbps),
             Advance(l, ops, key));
  }

  /** The run begins with the Permit that makes the bucket. */
  lemma WindowFromFirst(l: Limiter, ops: seq<Op>, key: Key, mbps: int)
    requires HasRate(l, key, mbps) && Steady(ops, key, mbps) && key !in l.buckets
    requires ops != [] && key in Step(l, ops[0]).buckets
    ensures Bounded(Total(l, ops, key) as real, BucketRate(mbps), Advance(l, ops, key))
  {
    var op, l1 := ops[0], Step(l, ops[0]);
    assert Steady([op], key, mbps);
    StepKeepsRate(l, op, key, mbps);
    FirstStepPays(l, op, key, mbps);
    RunPays(l1, ops[1..], key, mbps);
    var full, last := FullBucket(mbps, op.now), After(l1, ops[1..]).buckets[key];
    var x, y := Bytes(l, op, key), Total(l1, ops[1..], key);
    PaysTwice(full, x as real, l1.buckets[key], y as real, last);
    assert (x + y) as real == x as real + y as real && last == After(l, ops).buckets[key];
    Conclude(full, (x + y) as real, last, BucketRate(mbps), Advance(l, ops, key));
  }

  /** MAIN RESULT. Over any run of Permit and SetRates in which the device keeps its rate
      of r Mbps, whatever the clock reads, forwards or backwards, the bytes let through in
      one direction are at most one burst plus 125000 * r bytes for every second by which
      the bucket's clock advanced. */
  lemma {:induction false} WindowBound(l: Limiter, ops: seq<Op>, key: Key, mbps: int)
    requires HasRate(l, key, mbps) && Steady(ops, key, mbps) && (key in l.buckets ==> Level(l.buckets[key]))
    ensures Bounded(Total(l, ops, key) as real, BucketRate(mbps), Advance(l, ops, key))
    decreases |ops|
  {
    if key in l.buckets {
      WindowWithBucket(l, ops, key, mbps);
    } else if ops != [] && key in Step(l, ops[0]).buckets {
      WindowFromFirst(l, ops, key, mbps);
    } else if ops != [] {
      assert Steady([ops[0]], key, mbps);
      StepKeepsRate(l, ops[0], key, mbps);
      FirstStepPays(l, ops[0], key, mbps);
      StartIgnores(l, Step(l, ops[0]), ops[1..], key);
      WindowBound(Step(l, ops[0]), ops[1..], key, mbps);
      assert Advance(l, ops, key) == Advance(Step(l, ops[0]), ops[1..], key);
    } else {
      assert BucketRate(mbps) * 0.0 == 0.0;
    }
  }

  // ----- From the very beginning -----

  const NO_RATES: Limiter := Limiter(map[], false, map[])

  /** Nobody asks for a negative size. */
  ghost predicate Sane(ops: seq<Op>) { forall i | 0 <= i < |ops| && ops[i].Permit? :: ops[i].size >= 0 }

  ghost predicate AllLevel(l: Limiter) { forall k | k in l.buckets :: Level(l.buckets[k]) }

  lemma StepKeepsLevel(l: Limiter, op: Op)
    requires Valid(l) && AllLevel(l) && Sane([op])
    ensures AllLevel(Step(l, op))
  {
    assert [op][0] == op;
    if op.Permit? && Metered(l, op.key.id) {
      SpendKeeps(BucketFor(l, op.key, op.now), op.now, op.size);
    }
  }

  /** Whatever rates are set and whatever is asked for, every bucket's level stays between
      empty and its burst. */
  lemma {:induction false} LevelsStay(l: Limiter, ops: seq<Op>)
    requires Valid(l) && AllLevel(l) && Sane(ops)
    ensures AllLevel(After(l, ops))
    decreases |ops|
  {
    if ops != [] {
      assert Sane([ops[0]]) && Sane(ops[1..]);
      StepIsValid(l, ops[0]);
      StepKeepsLevel(l, ops[0]);
      LevelsStay(Step(l, ops[0]), ops[1..]);
    }
  }

  /** The rate in force after a run: that of the last table given, none if the last was no
      table, or there was none. */
  ghost predicate IsInForce(ops: seq<Op>, n: int) {
    0 <= n < |ops| && ops[n].SetRates? && forall m | n < m < |ops| :: !ops[m].SetRates?
  }

  ghost predicate InForce(ops: seq<Op>, id: string, mbps: int) {
    exists n :: IsInForce(ops, n) && ops[n].table.Some? && id in ops[n].table.value && ops[n].table.value[id] == mbps
  }

  /** Without a new table the rates stay. */
  lemma {:induction false} RatesStay(l: Limiter, ops: seq<Op>)
    requires Valid(l) && forall n | 0 <= n < |ops| :: !ops[n].SetRates?
    ensures After(l, ops).rates == l.rates && After(l, ops).known == l.known
    decreases |ops|
  {
    if ops != [] {
      StepIsValid(l, ops[0]);
      RatesStay(Step(l, ops[0]), ops[1..]);
    }
  }

  lemma {:induction false} LastTableRules(l: Limiter, ops: seq<Op>, n: nat)
    requires Valid(l) && IsInForce(ops, n)
    ensures var r, table := After(l, ops), ops[n].table;
            && r.known == table.Some?
            && r.rates == if table.Some? then Clamped(table.value) else map[]
    decreases |ops|
  {
    StepIsValid(l, ops[0]);
    if n == 0 {
      RatesStay(Step(l, ops[0]), ops[1..]);
    } else {
      LastTableRules(Step(l, ops[0]), ops[1..], n - 1);
    }
  }

  lemma {:induction false} LastTableExists(ops: seq<Op>) returns (n: int)
    ensures n == -1 ==> forall m | 0 <= m < |ops| :: !ops[m].SetRates?
    ensures n != -1 ==> IsInForce(ops, n)
  {
    n := |ops| - 1;
    if n >= 0 && !ops[n].SetRates? {
      n := LastTableExists(ops[..n]);
    }
  }

  /** In every state of a new limiter a device has a known rate exactly when the table in force
      has one, and none below 0. */
  lemma RateInForce(ops: seq<Op>, id: string)
    ensures var l := After(NO_RATES, ops);
            && (l.known && id in l.rates <==> exists mbps :: InForce(ops, id, mbps))
            && forall mbps | InForce(ops, id, mbps) :: l.rates[id] == if mbps < 0 then 0 else mbps
  {
    var n := LastTableExists(ops);
    if n == -1 {
      RatesStay(NO_RATES, ops);
    } else {
      LastTableRules(NO_RATES, ops, n);
      forall m | IsInForce(ops, m) ensures m == n {
      }
      if ops[n].table.Some? && id in ops[n].table.value {
        assert InForce(ops, id, ops[n].table.value[id]);
      }
    }
  }

  /** MAIN RESULT. It fails closed: after any run of a new limiter a request is denied if and
      only if no table is in force or it lacks the device; if the device's rate there is 0 or
      less the request is allowed and leaves no trace; and if it is positive the bucket that
      answers runs at 125,000 bytes per second for each Mbps. */
  lemma FailsClosed(ops: seq<Op>, key: Key, now: real, size: int)
    ensures var l := After(NO_RATES, ops);
            && Positive(l)
            && (PermitAnswer(l, key, now, size) == Denied <==> !exists mbps :: InForce(ops, key.id, mbps))
            && (PermitAnswer(l, key, now, size) == Denied ==> Permitted(l, key, now, size) == l)
            && (forall mbps | InForce(ops, key.id, mbps) && mbps <= 0 ::
                  PermitAnswer(l, key, now, size) == Allowed && Permitted(l, key, now, size) == l && key !in l.buckets)
            && (forall mbps | InForce(ops, key.id, mbps) && mbps > 0 ::
                  var b := Permitted(l, key, now, size).buckets;
                  key in b && b[key].rate == mbps as real * 125000.0)
  {
    RateInForce(ops, key.id);
    ValidIsPositive(After(NO_RATES, ops));
  }

  /** No table of the run has the device. */
  ghost predicate NeverListed(ops: seq<Op>, id: string) {
    forall n | 0 <= n < |ops| && ops[n].SetRates? && ops[n].table.Some? :: id !in ops[n].table.value
  }

  lemma {:induction false} UnlistedGetNothing(l: Limiter, ops: seq<Op>, key: Key)
    requires Valid(l) && !(l.known && key.id in l.rates) && NeverListed(ops, key.id)
    ensures Total(l, ops, key) == 0
    decreases |ops|
  {
    if ops != [] {
      StepIsValid(l, ops[0]);
      assert Bytes(l, ops[0], key) == 0;
      assert NeverListed([ops[0]], key.id) by {
        assert [ops[0]][0] == ops[0];
      }
      UnlistedGetNothing(Step(l, ops[0]), ops[1..], key);
    }
  }

  /** A device that is not in the table in force, and is put in none, gets no byte through in
      any window; so does every device before the first table. */
  lemma UnknownGetsNothing(earlier: seq<Op>, ops: seq<Op>, key: Key)
    requires (!exists mbps :: InForce(earlier, key.id, mbps)) && NeverListed(ops, key.id)
    ensures Total(After(NO_RATES, earlier), ops, key) == 0
  {
    RateInForce(earlier, key.id);
    UnlistedGetNothing(After(NO_RATES, earlier), ops, key);
  }

  /** At most one burst, of 100 ms but between 32768 and 262144 bytes, and the rate times the
      advance of the clock. */
  ghost predicate WithinRate(bytes: real, mbps: int, advance: real) {
    var burst := if mbps <= 2 then 32768.0 else if mbps <= 20 then mbps as real * 12500.0 else 262144.0;
    advance >= 0.0 && bytes <= burst + mbps as real * 125000.0 * advance
  }

  /** MAIN RESULT. So the bound holds, in bytes, for every window of every run of a new limiter
      in which the device's rate stays, whatever came before. */
  lemma EveryWindowIsBounded(earlier: seq<Op>, ops: seq<Op>, key: Key, mbps: int)
    requires Sane(earlier) && mbps >= 1 && InForce(earlier, key.id, mbps) && Steady(ops, key, mbps)
    ensures WithinRate(Total(After(NO_RATES, earlier), ops, key) as real, mbps,
                       Advance(After(NO_RATES, earlier), ops, key))
  {
    RateInForce(earlier, key.id);
    LevelsStay(NO_RATES, earlier);
    var l := After(NO_RATES, earlier);
    WindowBound(l, ops, key, mbps);
    InNumbers(Total(l, ops, key) as real, mbps, Advance(l, ops, key));
  }

  lemma InNumbers(bytes: real, mbps: int, advance: real)
    requires mbps >= 1 && Bounded(bytes, BucketRate(mbps), advance)
    ensures WithinRate(bytes, mbps, advance)
  {
    BurstInNumbers(mbps);
  }

  lemma BurstInNumbers(mbps: int)
    requires mbps >= 1
    ensures BucketRate(mbps) == mbps as real * 125000.0
    ensures BurstOf(BucketRate(mbps)) ==
            if mbps <= 2 then 32768.0 else if mbps <= 20 then mbps as real * 12500.0 else 262144.0
  {
  }

  lemma Conclude(b: Bucket, bytes: real, r: Bucket, rate: real, advance: real)
    requires Level(b) && Pays(b, bytes, r) && b.burst == BurstOf(rate) && b.rate == rate && advance == r.last - b.last
    ensures Bounded(bytes, rate, advance)
  {
    assert Credit(b) == b.tokens - rate * b.last && Credit(r) == r.tokens - rate * r.last;
    assert rate * advance == rate * r.last - rate * b.last;
  }

  lemma {:induction false} StartIgnores(l: Limiter, m: Limiter, ops: seq<Op>, key: Key)
    requires key !in l.buckets && key !in m.buckets
    ensures StartOf(l, ops, key) == StartOf(m, ops, key)
  {
    if ops != [] {
      StartIgnores(l, m, ops[1..], key);
    }
  }

  // ----- Refusals and retries -----

  lemma CeilBounds(x: real)
    ensures x <= Ceil(x) as real < x + 1.0
  {
  }

  /** Exactly when a later attempt for the same size succeeds, nothing else being spent. */
  lemma LaterAttempt(b: Bucket, t: real, size: int)
    requires Level(b) && b.rate > 0.0 && b.tokens < size as real <= b.burst
    ensures Fits(b, t, size) <==> t > b.last && (t - b.last) * b.rate >= size as real - b.tokens
  {
    if t > b.last {
      Refilled(b, t);
    } else {
      assert Refill(b, t) == b;
    }
  }

  /** How long a missing amount takes to flow in, in whole milliseconds: no less than the
      rounded time suffices, and a millisecond less does not. */
  lemma WaitIsTight(need: real, rate: real)
    requires rate >= 125000.0 && 0.0 < need <= 32768.0
    ensures var ms := Ceil(need * 1000.0 / rate);
            && 1 <= ms <= 263
            && ms as real / 1000.0 * rate >= need
            && (ms - 1) as real / 1000.0 * rate < need
  {
    var x := need * 1000.0 / rate;
    CeilBounds(x);
    assert x * rate == need * 1000.0;
    var ms := Ceil(x);
    Monotone(262.144, x, rate);
    Monotone(x, 0.0, rate);
    PerMillisecond(ms as real, x, rate, need);
    assert (ms - 1) as real == ms as real - 1.0;
    PerMillisecond((ms - 1) as real, x, rate, need);
  }

  lemma PerMillisecond(ms: real, x: real, rate: real, need: real)
    requires rate >= 125000.0 && x * rate == need * 1000.0
    ensures ms >= x ==> ms / 1000.0 * rate >= need
    ensures ms < x ==> ms / 1000.0 * rate < need
  {
    Monotone(x, ms, rate);
    Monotone(ms, x, rate);
    assert ms / 1000.0 * rate * 1000.0 == ms * rate;
  }

  /** Multiplying by a rate of at least 125000 keeps the order. */
  lemma Monotone(a: real, b: real, rate: real)
    requires rate >= 125000.0
    ensures a <= b ==> a * rate <= b * rate
    ensures a < b ==> a * rate < b * rate
    ensures a == 262.144 ==> a * rate >= 32768000.0
  {
    if a < b {
      assert (b - a) * rate > 0.0;
    }
  }

  /** How far a clock reading lies behind the bucket's own clock. */
  function Behind(b: Bucket, now: real): real { if now < b.last then b.last - now else 0.0 }

  /** What flows in during `wait` beyond the missing amount makes up for the time behind. */
  predicate MakesUp(r: Bucket, behind: real, wait: real, size: int) {
    behind * r.rate <= wait * r.rate - (size as real - r.tokens)
  }

  /** MAIN RESULT. Whatever the clock reads, a refused Permit of at most MaxChunk bytes on a
      bucket of at least 1 Mbps spends nothing; its wait is the exact time rounded up, at
      most 263 ms, so the clamps never act. With nothing else spent a retry that long after
      the bucket's clock is allowed, and one a full millisecond earlier is refused. */
  lemma RefusalIsTight(b: Bucket, mbps: int, now: real, size: int) returns (ms: int)
    requires mbps >= 1 && b.rate == BucketRate(mbps) && b.burst == BurstOf(b.rate) && Level(b)
    requires 0 <= size <= MAX_CHUNK && !Fits(b, now, size)
    ensures Answer(b, now, size) == Retry(ms) && 1 <= ms <= 263
    ensures ms == Ceil((size as real - Refill(b, now).tokens) * 1000.0 / b.rate)
    ensures Spent(b, now, size) == Refill(b, now) && Refill(b, now).last == now + Behind(b, now)
    ensures Fits(Refill(b, now), Refill(b, now).last + ms as real / 1000.0, size)
    ensures !Fits(Refill(b, now), Refill(b, now).last + (ms - 1) as real / 1000.0, size)
  {
    RefusedBucket(b, now, size);
    ms := RetryIsTight(Refill(b, now), Refill(b, now).last, size);
  }

  /** Counted from the caller's reading a retry, after that wait or any other, is allowed
      exactly when it makes up for the time by which that reading was behind. */
  lemma RetryByTheCallersClock(b: Bucket, mbps: int, now: real, size: int, wait: real)
    requires mbps >= 1 && b.rate == BucketRate(mbps) && b.burst == BurstOf(b.rate) && Level(b)
    requires 0 <= size <= MAX_CHUNK && !Fits(b, now, size)
    ensures Fits(Refill(b, now), now + wait, size) <==> MakesUp(Refill(b, now), Behind(b, now), wait, size)
  {
    RefusedBucket(b, now, size);
    RetryBehind(Refill(b, now), now, Behind(b, now), wait, size);
  }

  /** A retry after `wait` by a clock that is behind the bucket's. */
  lemma RetryBehind(r: Bucket, now: real, behind: real, wait: real, size: int)
    requires Level(r) && r.rate > 0.0 && r.tokens < size as real <= r.burst && r.last == now + behind
    ensures Fits(r, now + wait, size) <==> MakesUp(r, behind, wait, size)
  {
    var inflow := Flow(behind, wait, r.rate);
    assert now + wait == r.last + (wait - behind);
    if inflow >= size as real - r.tokens {
      LateEnough(r, r.last, wait - behind, size);
    } else {
      TooEarly(r, r.last, wait - behind, size);
    }
  }

  /** It can be refused: at 1 Mbps, drained by a reading of 1000 s, a byte asked for at 0 s is
      to be tried again in 1 ms, and is refused then. This takes an injected clock: readings
      of time.Now under the mutex never go back. */
  lemma RetryCanBeTooEarly()
    ensures var key, none := Key("device", Upload), NO_RATES;
            var ops := [SetRates(Some(map["device" := 1])), Permit(key, 1000.0, MAX_CHUNK)];
            Valid(none) && Valid(After(none, ops)) && Positive(After(none, ops))
                && Positive(Step(After(none, ops), Permit(key, 0.0, 1)))
            && PermitAnswer(After(none, ops), key, 0.0, 1) == Retry(1)
            && PermitAnswer(Step(After(none, ops), Permit(key, 0.0, 1)), key, 0.001, 1) == Retry(1)
  {
    var key, none := Key("device", Upload), NO_RATES;
    var set1, drain := SetRates(Some(map["device" := 1])), Permit(key, 1000.0, MAX_CHUNK);
    assert Step(none, set1) == Limiter(map["device" := 1], true, map[]);
    var drained := Bucket(125000.0, 32768.0, 0.0, 1000.0);
    assert Spent(FullBucket(1, 1000.0), 1000.0, MAX_CHUNK) == drained;
    var l := Limiter(map["device" := 1], true, map[key := drained]);
    assert Step(Step(none, set1), drain) == l;
    TwoSteps(none, set1, drain);
    assert Spent(drained, 0.0, 1) == drained;
    assert Step(l, Permit(key, 0.0, 1)) == l;
    ValidIsPositive(l);
    OneMillisecond();
  }

  lemma TwoSteps(l: Limiter, a: Op, b: Op)
    requires Valid(l)
    ensures Valid(Step(l, a)) && After(l, [a, b]) == Step(Step(l, a), b)
  {
    StepIsValid(l, a);
    var m := Step(l, a);
    StepIsValid(m, b);
    assert [a, b][1..] == [b] && [b][1..] == [];
    assert After(m, [b]) == Step(m, b);
  }

  lemma OneMillisecond()
    ensures WaitMs(Bucket(125000.0, 32768.0, 0.0, 1000.0), 1) == 1
  {
    assert (1.0 - 0.0) * 1000.0 / 125000.0 == 0.008;
    assert (-0.008).Floor == -1;
  }

  lemma RetryIsTight(r: Bucket, now: real, size: int) returns (ms: int)
    requires Level(r) && r.rate >= 125000.0 && r.last == now
    requires 0.0 < size as real - r.tokens <= 32768.0 && size as real <= r.burst
    ensures 1 <= ms <= 263 && ms == Ceil((size as real - r.tokens) * 1000.0 / r.rate) == WaitMs(r, size)
    ensures Fits(r, now + ms as real / 1000.0, size) && !Fits(r, now + (ms - 1) as real / 1000.0, size)
  {
    WaitIsTight(size as real - r.tokens, r.rate);
    ms := Ceil((size as real - r.tokens) * 1000.0 / r.rate);
    LateEnough(r, now, ms as real / 1000.0, size);
    TooEarly(r, now, (ms - 1) as real / 1000.0, size);
  }

  lemma LateEnough(r: Bucket, now: real, wait: real, size: int)
    requires Level(r) && r.rate > 0.0 && r.tokens < size as real <= r.burst && r.last == now
    requires wait * r.rate >= size as real - r.tokens
    ensures Fits(r, now + wait, size)
  {
    if wait <= 0.0 {
      var none := Flow(0.0, wait, r.rate);
      assert false;
    }
    LaterAttempt(r, now + wait, size);
    assert now + wait - r.last == wait;
  }

  lemma TooEarly(r: Bucket, now: real, wait: real, size: int)
    requires Level(r) && r.rate > 0.0 && r.tokens < size as real <= r.burst && r.last == now
    requires wait * r.rate < size as real - r.tokens
    ensures !Fits(r, now + wait, size)
  {
    LaterAttempt(r, now + wait, size);
    assert now + wait - r.last == wait;
  }

  lemma RefusedBucket(b: Bucket, now: real, size: int)
    requires b.rate >= 125000.0 && b.burst == BurstOf(b.rate) && Level(b)
    requires 0 <= size <= MAX_CHUNK && !Fits(b, now, size)
    ensures var r := Refill(b, now);
            && Level(r) && r.rate == b.rate && r.last == now + Behind(b, now)
               && 0.0 < size as real - r.tokens <= 32768.0 && size as real <= r.burst
            && Spent(b, now, size) == r
  {
    RefillKeeps(b, now);
  }

  /** A size can ever be permitted exactly when it fits the burst, which every chunk does. */
  lemma FitsExactlyTheBurst(b: Bucket, size: int)
    requires Level(b) && b.rate > 0.0
    ensures (exists t :: Fits(b, t, size)) <==> size as real <= b.burst
    ensures b.burst == BurstOf(b.rate) ==> b.burst >= MAX_CHUNK as real
  {
    if size as real <= b.burst {
      var need := b.burst - b.tokens;
      var t := b.last + 1.0 + need / b.rate;
      assert (t - b.last) * b.rate == b.rate + need;
      assert Fits(b, t, size);
    }
  }
}
