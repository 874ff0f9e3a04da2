/** The static check accepts exactly the acceptable configurations, and finds exactly what they
    say. */
module CheckIsExact {
  import opened Base
  import opened DeviceConfig
  import opened DeviceCheck
  import opened Acceptance
  import opened ClaimLog
  import opened RuleScan
  import opened ClientCheck

  // ----- All clients of all inbounds -----

  /** The configuration lists this client before the j-th of the k-th inbound. */
  ghost predicate Earlier(cfg: Config, a: nat, b: nat, k: nat, j: nat) {
    a < |cfg.inbounds| && b < |cfg.inbounds[a].clients| && (a < k || (a == k && b < j))
  }

  ghost predicate ServesBefore(cfg: Config, a: nat, b: nat, k: nat, j: nat, id: string) {
    Earlier(cfg, a, b, k, j) && Serves(cfg, a, b, id)
  }

  ghost predicate ServedBefore(cfg: Config, k: nat, j: nat, id: string) {
    exists a: nat, b: nat :: ServesBefore(cfg, a, b, k, j, id)
  }

  ghost predicate NamesBefore(cfg: Config, a: nat, b: nat, k: nat, j: nat, x: Identity) {
    Earlier(cfg, a, b, k, j) && x == IdentityOf(cfg.inbounds[a], cfg.inbounds[a].clients[b])
  }

  function Tier(cfg: Config, k: nat): int
    requires k < |cfg.inbounds|
  {
    ParseLimitTag(cfg.inbounds[k].tag).GetOr(0)
  }

  ghost predicate IsTierOf(cfg: Config, id: string, r: int, k: nat, j: nat) {
    exists a: nat, b: nat :: ServesBefore(cfg, a, b, k, j, id) && Tier(cfg, a) == r
  }

  /** r is the strictest tier of the inbounds that list the device so far, 0 for none. */
  ghost predicate IsStrictest(cfg: Config, id: string, r: int, k: nat, j: nat) {
    && r >= 0 && (r != 0 ==> IsTierOf(cfg, id, r, k, j))
    && forall a: nat, b: nat | ServesBefore(cfg, a, b, k, j, id) :: Tier(cfg, a) == 0 || 0 < r <= Tier(cfg, a)
  }

  ghost predicate Identified(cfg: Config, identities: set<Identity>, k: nat, j: nat) {
    forall x :: x in identities <==> exists a: nat, b: nat :: NamesBefore(cfg, a, b, k, j, x)
  }

  ghost predicate Rated(cfg: Config, rates: map<string, int>, k: nat, j: nat) {
    && (forall id :: id in rates <==> ServedBefore(cfg, k, j, id))
    && forall id | id in rates :: IsStrictest(cfg, id, rates[id], k, j)
  }

  ghost predicate Matched(cfg: Config, matched: set<string>, rates: map<string, int>) {
    forall t :: t in matched <==> exists id :: id in rates && t in TagsOf(cfg, id)
  }

  /** The facts gathered before the j-th client of the k-th inbound. */
  ghost predicate Upto(cfg: Config, acc: Acc, k: nat, j: nat)
    requires k <= |cfg.inbounds| && (j == 0 || (k < |cfg.inbounds| && j <= |cfg.inbounds[k].clients|))
  {
    && Logged(acc, ClaimsBefore(cfg, k, j)) && Identified(cfg, acc.identities, k, j)
    && Rated(cfg, acc.rates, k, j) && Matched(cfg, acc.matched, acc.rates)
  }

  lemma EarlierNext(cfg: Config, a: nat, b: nat, k: nat, j: nat)
    requires k < |cfg.inbounds| && j < |cfg.inbounds[k].clients|
    ensures Earlier(cfg, a, b, k, j + 1) <==> Earlier(cfg, a, b, k, j) || (a == k && b == j)
  {
  }

  lemma IdentifiedNext(cfg: Config, identities: set<Identity>, k: nat, j: nat)
    requires k < |cfg.inbounds| && j < |cfg.inbounds[k].clients| && Identified(cfg, identities, k, j)
    ensures Identified(cfg, identities + {IdentityOf(cfg.inbounds[k], cfg.inbounds[k].clients[j])}, k, j + 1)
  {
    var me, next := IdentityOf(cfg.inbounds[k], cfg.inbounds[k].clients[j]), j + 1;
    forall x ensures x in identities + {me} <==> exists a: nat, b: nat :: NamesBefore(cfg, a, b, k, next, x) {
      if x == me {
        assert NamesBefore(cfg, k, j, k, next, x);
      } else if x in identities {
        var a: nat, b: nat :| NamesBefore(cfg, a, b, k, j, x);
        assert NamesBefore(cfg, a, b, k, next, x);
      } else if a: nat, b: nat :| NamesBefore(cfg, a, b, k, next, x) {
        EarlierNext(cfg, a, b, k, j);
        assert NamesBefore(cfg, a, b, k, j, x);
      }
    }
  }

  /** A client that does not serve the device changes nothing for it. */
  lemma SameServed(cfg: Config, id: string, k: nat, j: nat, a: nat, b: nat)
    requires k < |cfg.inbounds| && j < |cfg.inbounds[k].clients| && !Serves(cfg, k, j, id)
    ensures ServesBefore(cfg, a, b, k, j + 1, id) <==> ServesBefore(cfg, a, b, k, j, id)
  {
    EarlierNext(cfg, a, b, k, j);
  }

  lemma OtherRateStays(cfg: Config, id: string, r: int, k: nat, j: nat)
    requires k < |cfg.inbounds| && j < |cfg.inbounds[k].clients| && !Serves(cfg, k, j, id)
    requires IsStrictest(cfg, id, r, k, j)
    ensures IsStrictest(cfg, id, r, k, j + 1)
  {
    var next := j + 1;
    if r != 0 {
      var a: nat, b: nat :| ServesBefore(cfg, a, b, k, j, id) && Tier(cfg, a) == r;
      SameServed(cfg, id, k, j, a, b);
      assert ServesBefore(cfg, a, b, k, next, id);
    }
    forall a: nat, b: nat | ServesBefore(cfg, a, b, k, next, id) ensures Tier(cfg, a) == 0 || 0 < r <= Tier(cfg, a) {
      SameServed(cfg, id, k, j, a, b);
    }
  }

  lemma OtherKeyStays(cfg: Config, id: string, k: nat, j: nat)
    requires k < |cfg.inbounds| && j < |cfg.inbounds[k].clients| && !Serves(cfg, k, j, id)
    ensures ServedBefore(cfg, k, j + 1, id) <==> ServedBefore(cfg, k, j, id)
  {
    var next := j + 1;
    if a: nat, b: nat :| ServesBefore(cfg, a, b, k, next, id) {
      SameServed(cfg, id, k, j, a, b);
    }
    if a: nat, b: nat :| ServesBefore(cfg, a, b, k, j, id) {
      SameServed(cfg, id, k, j, a, b);
      assert ServesBefore(cfg, a, b, k, next, id);
    }
  }

  lemma SameKeys(cfg: Config, rates: map<string, int>, k: nat, j: nat)
    requires k < |cfg.inbounds| && j < |cfg.inbounds[k].clients| && !Serves(cfg, k, j, cfg.inbounds[k].clients[j].id)
    requires forall id :: id in rates <==> ServedBefore(cfg, k, j, id)
    ensures forall id :: id in rates <==> ServedBefore(cfg, k, j + 1, id)
  {
    forall id ensures id in rates <==> ServedBefore(cfg, k, j + 1, id) {
      ServesOneAtMost(cfg, k, j, id);
      OtherKeyStays(cfg, id, k, j);
    }
  }

  lemma SameTiers(cfg: Config, rates: map<string, int>, k: nat, j: nat)
    requires k < |cfg.inbounds| && j < |cfg.inbounds[k].clients| && !Serves(cfg, k, j, cfg.inbounds[k].clients[j].id)
    requires forall id | id in rates :: IsStrictest(cfg, id, rates[id], k, j)
    ensures forall id | id in rates :: IsStrictest(cfg, id, rates[id], k, j + 1)
  {
    forall id | id in rates ensures IsStrictest(cfg, id, rates[id], k, j + 1) {
      ServesOneAtMost(cfg, k, j, id);
      OtherRateStays(cfg, id, rates[id], k, j);
    }
  }

  /** A client that is not served changes no rate. */
  lemma UnratedNext(cfg: Config, rates: map<string, int>, k: nat, j: nat)
    requires k < |cfg.inbounds| && j < |cfg.inbounds[k].clients| && Rated(cfg, rates, k, j)
    requires !Serves(cfg, k, j, cfg.inbounds[k].clients[j].id)
    ensures Rated(cfg, rates, k, j + 1)
  {
    SameKeys(cfg, rates, k, j);
    SameTiers(cfg, rates, k, j);
  }

  lemma ServesOneAtMost(cfg: Config, k: nat, j: nat, id: string)
    requires k < |cfg.inbounds| && j < |cfg.inbounds[k].clients|
    ensures Serves(cfg, k, j, id) ==> id == cfg.inbounds[k].clients[j].id
  {
  }

  /** The device's rate after this inbound: the stricter of its rate so far and the tier. */
  lemma StricterOf(rates: map<string, int>, id: string, tier: int)
    requires tier >= 0 && (id in rates ==> rates[id] >= 0)
    ensures var r := StricterTier(rates, id, tier)[id];
            && r >= 0 && (tier == 0 || 0 < r <= tier)
            && (id in rates && rates[id] != 0 ==> 0 < r <= rates[id])
            && (r == tier || (id in rates && r == rates[id]))
  {
  }

  lemma StrictestNext(cfg: Config, rates: map<string, int>, k: nat, j: nat)
    requires k < |cfg.inbounds| && j < |cfg.inbounds[k].clients| && Rated(cfg, rates, k, j)
    requires Serves(cfg, k, j, cfg.inbounds[k].clients[j].id)
    ensures var id := cfg.inbounds[k].clients[j].id;
            IsStrictest(cfg, id, StricterTier(rates, id, Tier(cfg, k))[id], k, j + 1)
  {
    var id, next := cfg.inbounds[k].clients[j].id, j + 1;
    var r := StricterTier(rates, id, Tier(cfg, k))[id];
    StrictestReached(cfg, rates, k, j);
    forall a: nat, b: nat | ServesBefore(cfg, a, b, k, next, id) ensures Tier(cfg, a) == 0 || 0 < r <= Tier(cfg, a) {
      StrictestBound(cfg, rates, k, j, a, b);
    }
  }

  lemma StrictestReached(cfg: Config, rates: map<string, int>, k: nat, j: nat)
    requires k < |cfg.inbounds| && j < |cfg.inbounds[k].clients| && Rated(cfg, rates, k, j)
    requires Serves(cfg, k, j, cfg.inbounds[k].clients[j].id)
    ensures var id := cfg.inbounds[k].clients[j].id;
            var r := StricterTier(rates, id, Tier(cfg, k))[id];
            r >= 0 && (r != 0 ==> IsTierOf(cfg, id, r, k, j + 1))
  {
    var id, next := cfg.inbounds[k].clients[j].id, j + 1;
    var r := StricterTier(rates, id, Tier(cfg, k))[id];
    StricterOf(rates, id, Tier(cfg, k));
    if r == Tier(cfg, k) {
      assert ServesBefore(cfg, k, j, k, next, id);
    } else if r != 0 {
      assert IsStrictest(cfg, id, r, k, j);
      var a: nat, b: nat :| ServesBefore(cfg, a, b, k, j, id) && Tier(cfg, a) == r;
      assert ServesBefore(cfg, a, b, k, next, id);
    }
  }

  lemma StrictestBound(cfg: Config, rates: map<string, int>, k: nat, j: nat, a: nat, b: nat)
    requires k < |cfg.inbounds| && j < |cfg.inbounds[k].clients| && Rated(cfg, rates, k, j)
    requires ServesBefore(cfg, a, b, k, j + 1, cfg.inbounds[k].clients[j].id)
    ensures var id := cfg.inbounds[k].clients[j].id;
            Tier(cfg, a) == 0 || 0 < StricterTier(rates, id, Tier(cfg, k))[id] <= Tier(cfg, a)
  {
    var id := cfg.inbounds[k].clients[j].id;
    EarlierNext(cfg, a, b, k, j);
    if a == k && b == j {
      assert id in rates ==> IsStrictest(cfg, id, rates[id], k, j);
    } else {
      assert ServesBefore(cfg, a, b, k, j, id) && ServedBefore(cfg, k, j, id);
      assert IsStrictest(cfg, id, rates[id], k, j);
    }
    StricterOf(rates, id, Tier(cfg, k));
  }

  lemma RatedNext(cfg: Config, rates: map<string, int>, k: nat, j: nat)
    requires k < |cfg.inbounds| && j < |cfg.inbounds[k].clients| && Rated(cfg, rates, k, j)
    requires Serves(cfg, k, j, cfg.inbounds[k].clients[j].id)
    ensures Rated(cfg, StricterTier(rates, cfg.inbounds[k].clients[j].id, Tier(cfg, k)), k, j + 1)
  {
    var me, next := cfg.inbounds[k].clients[j].id, j + 1;
    var r := StricterTier(rates, me, Tier(cfg, k));
    forall id ensures id in r <==> ServedBefore(cfg, k, next, id) {
      if id == me {
        assert ServesBefore(cfg, k, j, k, next, id);
      } else {
        OtherKeyStays(cfg, id, k, j);
      }
    }
    forall id | id in r ensures IsStrictest(cfg, id, r[id], k, next) {
      if id == me {
        StrictestNext(cfg, rates, k, j);
      } else {
        OtherRateStays(cfg, id, r[id], k, j);
      }
    }
  }

  lemma MatchedNext(cfg: Config, matched: set<string>, rates: map<string, int>, id: string, limit: int)
    requires Matched(cfg, matched, rates)
    ensures Matched(cfg, matched + TagsOf(cfg, id), StricterTier(rates, id, limit))
  {
    var r := StricterTier(rates, id, limit);
    forall t ensures t in matched + TagsOf(cfg, id) <==> exists x :: x in r && t in TagsOf(cfg, x) {
      if t in matched {
        var x :| x in rates && t in TagsOf(cfg, x);
        assert x in r;
      }
      if t in TagsOf(cfg, id) {
        assert id in r;
      }
      if x :| x in r && t in TagsOf(cfg, x) {
        assert x == id || x in rates;
      }
    }
  }

  /** One client further. */
  lemma UptoNext(cfg: Config, acc: Acc, r: Acc, k: nat, j: nat)
    requires k < |cfg.inbounds| && j < |cfg.inbounds[k].clients| && Upto(cfg, acc, k, j)
    requires Noted(cfg, cfg.inbounds[k], cfg.inbounds[k].clients[j], acc, r) && Logged(r, ClaimsBefore(cfg, k, j + 1))
    ensures Upto(cfg, r, k, j + 1)
  {
    var client := cfg.inbounds[k].clients[j];
    IdentifiedNext(cfg, acc.identities, k, j);
    if cfg.inbounds[k].protocol == "vless" && TagsOf(cfg, client.id) != {} {
      RatedNext(cfg, acc.rates, k, j);
      MatchedNext(cfg, acc.matched, acc.rates, client.id, Tier(cfg, k));
    } else {
      UnratedNext(cfg, acc.rates, k, j);
    }
  }

  lemma SameEarlier(cfg: Config, k: nat, a: nat, b: nat)
    requires k < |cfg.inbounds|
    ensures Earlier(cfg, a, b, k + 1, 0) <==> Earlier(cfg, a, b, k, |cfg.inbounds[k].clients|)
  {
  }

  lemma IdentifiedInbound(cfg: Config, identities: set<Identity>, k: nat)
    requires k < |cfg.inbounds| && Identified(cfg, identities, k, |cfg.inbounds[k].clients|)
    ensures Identified(cfg, identities, k + 1, 0)
  {
    var n, next := |cfg.inbounds[k].clients|, k + 1;
    forall x ensures x in identities <==> exists a: nat, b: nat :: NamesBefore(cfg, a, b, next, 0, x) {
      if x in identities {
        var a: nat, b: nat :| NamesBefore(cfg, a, b, k, n, x);
        SameEarlier(cfg, k, a, b);
        assert NamesBefore(cfg, a, b, next, 0, x);
      }
      if a: nat, b: nat :| NamesBefore(cfg, a, b, next, 0, x) {
        SameEarlier(cfg, k, a, b);
        assert NamesBefore(cfg, a, b, k, n, x);
      }
    }
  }

  lemma StrictestInbound(cfg: Config, id: string, r: int, k: nat)
    requires k < |cfg.inbounds|
    ensures IsStrictest(cfg, id, r, k + 1, 0) <==> IsStrictest(cfg, id, r, k, |cfg.inbounds[k].clients|)
    ensures ServedBefore(cfg, k + 1, 0, id) <==> ServedBefore(cfg, k, |cfg.inbounds[k].clients|, id)
  {
    var n, next := |cfg.inbounds[k].clients|, k + 1;
    forall a: nat, b: nat ensures ServesBefore(cfg, a, b, next, 0, id) <==> ServesBefore(cfg, a, b, k, n, id) {
      SameEarlier(cfg, k, a, b);
    }
  }

  lemma RatedInbound(cfg: Config, rates: map<string, int>, k: nat)
    requires k < |cfg.inbounds| && Rated(cfg, rates, k, |cfg.inbounds[k].clients|)
    ensures Rated(cfg, rates, k + 1, 0)
  {
    forall id ensures id in rates <==> ServedBefore(cfg, k + 1, 0, id) {
      StrictestInbound(cfg, id, 0, k);
    }
    forall id | id in rates ensures IsStrictest(cfg, id, rates[id], k + 1, 0) {
      StrictestInbound(cfg, id, rates[id], k);
    }
  }

  /** The next inbound begins where this one ends. */
  lemma UptoInbound(cfg: Config, acc: Acc, k: nat)
    requires k < |cfg.inbounds| && Upto(cfg, acc, k, |cfg.inbounds[k].clients|)
    ensures Upto(cfg, acc, k + 1, 0)
  {
    IdentifiedInbound(cfg, acc.identities, k);
    RatedInbound(cfg, acc.rates, k);
  }

  lemma PrefixOfPrefix(a: seq<Claim>, b: seq<Claim>, c: seq<Claim>)
    requires a <= b <= c
    ensures a <= c
  {
  }

  lemma PrefixOfSum(a: seq<Claim>, b: seq<Claim>, c: seq<Claim>)
    requires a <= b
    ensures a <= b + c
  {
  }

  lemma {:induction false} ClaimsGrow(cfg: Config, k: nat, j: nat, n: nat)
    requires k < |cfg.inbounds| && j <= n <= |cfg.inbounds[k].clients|
    ensures ClaimsBefore(cfg, k, j) <= ClaimsBefore(cfg, k, n)
    decreases n - j
  {
    if j < n {
      ClaimsGrow(cfg, k, j, n - 1);
      var more := ClientClaims(cfg, cfg.inbounds[k], cfg.inbounds[k].clients[n - 1]);
      assert ClaimsBefore(cfg, k, n) == ClaimsBefore(cfg, k, n - 1) + more;
      PrefixOfSum(ClaimsBefore(cfg, k, j), ClaimsBefore(cfg, k, n - 1), more);
    }
  }

  lemma {:induction false} ClaimsGrowOn(cfg: Config, k: nat, m: nat)
    requires k <= m <= |cfg.inbounds|
    ensures ClaimsBefore(cfg, k, 0) <= ClaimsBefore(cfg, m, 0)
    decreases m - k
  {
    if k < m {
      ClaimsGrowOn(cfg, k, m - 1);
      ClaimsGrow(cfg, m - 1, 0, |cfg.inbounds[m - 1].clients|);
      assert ClaimsBefore(cfg, m, 0) == ClaimsBefore(cfg, m - 1, |cfg.inbounds[m - 1].clients|);
      PrefixOfPrefix(ClaimsBefore(cfg, k, 0), ClaimsBefore(cfg, m - 1, 0), ClaimsBefore(cfg, m, 0));
    }
  }

  lemma ConsistentStart(a: seq<Claim>, b: seq<Claim>)
    requires a <= b && Consistent(b)
    ensures Consistent(a)
  {
    assert a + b[|a|..] == b;
    ConsistentPrefix(a, b[|a|..]);
  }

  /** From the j-th client of the k-th inbound on, each is in order. */
  ghost predicate RestOk(cfg: Config, k: nat, j: nat)
    requires k < |cfg.inbounds|
  {
    forall n: nat | j <= n < |cfg.inbounds[k].clients| :: ClientOk(cfg, cfg.inbounds[k], cfg.inbounds[k].clients[n])
  }

  lemma {:induction false} ClientsExactly(cfg: Config, env: Env, k: nat, j: nat, acc: Acc)
    requires EnvIs(cfg, env) && k < |cfg.inbounds| && j <= |cfg.inbounds[k].clients| && Upto(cfg, acc, k, j)
    ensures var r, n := ClientsFrom(env, cfg.inbounds[k], j, acc), |cfg.inbounds[k].clients|;
            && (r.Ok? <==> RestOk(cfg, k, j) && Consistent(ClaimsBefore(cfg, k, n)))
            && (r.Ok? ==> Upto(cfg, r.value, k, n))
    decreases |cfg.inbounds[k].clients| - j
  {
    var inbound := cfg.inbounds[k];
    if j < |inbound.clients| {
      ClientExactly(cfg, env, inbound, inbound.clients[j], acc, ClaimsBefore(cfg, k, j));
      var r := CheckClient(env, inbound, inbound.clients[j], acc);
      if r.Ok? {
        UptoNext(cfg, acc, r.value, k, j);
        ClientsExactly(cfg, env, k, j + 1, r.value);
      } else if Consistent(ClaimsBefore(cfg, k, |inbound.clients|)) {
        ClaimsGrow(cfg, k, j + 1, |inbound.clients|);
        ConsistentStart(ClaimsBefore(cfg, k, j + 1), ClaimsBefore(cfg, k, |inbound.clients|));
      }
    }
  }

  ghost predicate InboundsOk(cfg: Config, k: nat) {
    forall m: nat | k <= m < |cfg.inbounds| :: RestOk(cfg, m, 0)
  }

  /** What the check of the inbounds from k on comes to. */
  ghost predicate InboundsMean(cfg: Config, k: nat, r: Result<Acc, ParseError>) {
    && (r.Ok? <==> InboundsOk(cfg, k) && Consistent(ClaimsBefore(cfg, |cfg.inbounds|, 0)))
    && (r.Ok? ==> Upto(cfg, r.value, |cfg.inbounds|, 0))
  }

  lemma InboundIsPrefix(cfg: Config, k: nat)
    requires k < |cfg.inbounds|
    ensures ClaimsBefore(cfg, k, |cfg.inbounds[k].clients|) <= ClaimsBefore(cfg, |cfg.inbounds|, 0)
  {
    ClaimsGrowOn(cfg, k + 1, |cfg.inbounds|);
  }

  lemma ConsistentInbound(cfg: Config, k: nat)
    requires k < |cfg.inbounds| && Consistent(ClaimsBefore(cfg, |cfg.inbounds|, 0))
    ensures Consistent(ClaimsBefore(cfg, k, |cfg.inbounds[k].clients|))
  {
    InboundIsPrefix(cfg, k);
    ConsistentStart(ClaimsBefore(cfg, k, |cfg.inbounds[k].clients|), ClaimsBefore(cfg, |cfg.inbounds|, 0));
  }

  lemma InboundStops(cfg: Config, k: nat)
    requires k < |cfg.inbounds|
    requires !(RestOk(cfg, k, 0) && Consistent(ClaimsBefore(cfg, k, |cfg.inbounds[k].clients|)))
    ensures !(InboundsOk(cfg, k) && Consistent(ClaimsBefore(cfg, |cfg.inbounds|, 0)))
  {
    if Consistent(ClaimsBefore(cfg, |cfg.inbounds|, 0)) {
      ConsistentInbound(cfg, k);
    }
  }

  lemma InboundGoesOn(cfg: Config, k: nat, r: Result<Acc, ParseError>)
    requires k < |cfg.inbounds| && RestOk(cfg, k, 0) && InboundsMean(cfg, k + 1, r)
    ensures InboundsMean(cfg, k, r)
  {
  }

  lemma {:induction false} InboundsExactly(cfg: Config, env: Env, k: nat, acc: Acc)
    requires EnvIs(cfg, env) && k <= |cfg.inbounds| && Upto(cfg, acc, k, 0)
    ensures InboundsMean(cfg, k, InboundsFrom(env, k, acc))
    decreases |cfg.inbounds| - k
  {
    if k < |cfg.inbounds| {
      ClientsExactly(cfg, env, k, 0, acc);
      var r := ClientsFrom(env, cfg.inbounds[k], 0, acc);
      if r.Ok? {
        UptoInbound(cfg, r.value, k);
        InboundsExactly(cfg, env, k + 1, r.value);
        InboundGoesOn(cfg, k, InboundsFrom(env, k, acc));
      } else {
        InboundStops(cfg, k);
      }
    }
  }

  lemma NothingYet(cfg: Config)
    ensures Upto(cfg, EMPTY_ACC, 0, 0)
  {
  }

  // ----- The whole check -----

  lemma ServedAreRated(cfg: Config, rates: map<string, int>)
    requires Rated(cfg, rates, |cfg.inbounds|, 0)
    ensures forall id :: id in rates <==> IsServed(cfg, id)
  {
    forall id ensures id in rates <==> IsServed(cfg, id) {
      if IsServed(cfg, id) {
        var a: nat, b: nat :| Serves(cfg, a, b, id);
        assert ServesBefore(cfg, a, b, |cfg.inbounds|, 0, id);
      }
    }
  }

  lemma RateTableExactly(cfg: Config, rates: map<string, int>)
    requires Rated(cfg, rates, |cfg.inbounds|, 0)
    ensures ApplyRateTable(rates, cfg.rates).Ok? <==> RatesOk(cfg)
  {
    ServedAreRated(cfg, rates);
  }

  lemma AllMatchedExactly(cfg: Config, devices: map<string, Device>, acc: Acc)
    requires Knows(cfg, devices) && Rated(cfg, acc.rates, |cfg.inbounds|, 0) && Matched(cfg, acc.matched, acc.rates)
    ensures (exists tag | tag in devices :: tag !in acc.matched) <==>
            !AllServed(cfg)
  {
    ServedAreRated(cfg, acc.rates);
    forall tag | tag in devices ensures tag in acc.matched <==> IsServed(cfg, devices[tag].id) {
      KnownTags(cfg, devices, devices[tag].id);
      if tag in acc.matched {
        var id :| id in acc.rates && tag in TagsOf(cfg, id);
      }
    }
    if tag :| tag in devices && tag !in acc.matched {
      var o :| o in cfg.outbounds && o.tag == tag;
    }
  }

  lemma DeclarationsExactly(cfg: Config)
    ensures DevicesFrom(cfg.outbounds, 0, map[]).Ok? <==> DeclaresWell(cfg.outbounds)
    ensures DevicesFrom(cfg.outbounds, 0, map[]).Ok? ==> Knows(cfg, DevicesFrom(cfg.outbounds, 0, map[]).value)
  {
    DevicesExactly(cfg.outbounds, 0, map[]);
    if DevicesFrom(cfg.outbounds, 0, map[]).Ok? {
      DevicesAreKnown(cfg);
    }
  }

  lemma ClientsAreAll(cfg: Config)
    ensures InboundsOk(cfg, 0) <==>
            forall k: nat, j: nat | k < |cfg.inbounds| && j < |cfg.inbounds[k].clients| ::
              ClientOk(cfg, cfg.inbounds[k], cfg.inbounds[k].clients[j])
  {
    if InboundsOk(cfg, 0) {
      forall k: nat, j: nat | k < |cfg.inbounds| && j < |cfg.inbounds[k].clients|
        ensures ClientOk(cfg, cfg.inbounds[k], cfg.inbounds[k].clients[j])
      {
        assert RestOk(cfg, k, 0);
      }
    }
  }

  /** The facts gathered from all clients, when the declarations and all clients are in order. */
  lemma AllClients(cfg: Config) returns (acc: Acc)
    requires DeclaresWell(cfg.outbounds) && InboundsOk(cfg, 0) && Consistent(ClaimsBefore(cfg, |cfg.inbounds|, 0))
    ensures DevicesFrom(cfg.outbounds, 0, map[]).Ok?
    ensures var devices := DevicesFrom(cfg.outbounds, 0, map[]).value;
            && Knows(cfg, devices) && Upto(cfg, acc, |cfg.inbounds|, 0)
            && InboundsFrom(Env(cfg, devices, DenyTags(cfg.outbounds)), 0, EMPTY_ACC) == Ok(acc)
  {
    DeclarationsExactly(cfg);
    NothingYet(cfg);
    var env := Env(cfg, DevicesFrom(cfg.outbounds, 0, map[]).value, DenyTags(cfg.outbounds));
    InboundsExactly(cfg, env, 0, EMPTY_ACC);
    acc := InboundsFrom(env, 0, EMPTY_ACC).value;
  }

  lemma ParsesClients(cfg: Config)
    requires Parse(cfg).Ok?
    ensures DeclaresWell(cfg.outbounds) && InboundsOk(cfg, 0) && Consistent(ClaimsBefore(cfg, |cfg.inbounds|, 0))
  {
    DeclarationsExactly(cfg);
    NothingYet(cfg);
    var env := Env(cfg, DevicesFrom(cfg.outbounds, 0, map[]).value, DenyTags(cfg.outbounds));
    InboundsExactly(cfg, env, 0, EMPTY_ACC);
  }

  lemma ParseIs(cfg: Config, devices: map<string, Device>, acc: Acc)
    requires DevicesFrom(cfg.outbounds, 0, map[]) == Ok(devices)
    requires InboundsFrom(Env(cfg, devices, DenyTags(cfg.outbounds)), 0, EMPTY_ACC) == Ok(acc)
    ensures Parse(cfg).Ok? <==>
              !(exists tag | tag in devices :: tag !in acc.matched) && ApplyRateTable(acc.rates, cfg.rates).Ok?
    ensures Parse(cfg).Ok? ==>
              Parse(cfg).value == Parsed(devices, acc.identities, acc.sources, acc.ports, acc.tokens,
                                         ApplyRateTable(acc.rates, cfg.rates).value)
  {
  }

  /** The rest of the check. */
  lemma ParseEnds(cfg: Config, acc: Acc)
    requires DevicesFrom(cfg.outbounds, 0, map[]).Ok?
    requires Rated(cfg, acc.rates, |cfg.inbounds|, 0) && Matched(cfg, acc.matched, acc.rates)
    requires var devices := DevicesFrom(cfg.outbounds, 0, map[]).value;
             && Knows(cfg, devices)
             && InboundsFrom(Env(cfg, devices, DenyTags(cfg.outbounds)), 0, EMPTY_ACC) == Ok(acc)
    ensures Parse(cfg).Ok? <==> AllServed(cfg) && RatesOk(cfg)
    ensures Parse(cfg).Ok? ==>
              Parse(cfg).value ==
              Parsed(DevicesFrom(cfg.outbounds, 0, map[]).value, acc.identities, acc.sources, acc.ports, acc.tokens,
                     ApplyRateTable(acc.rates, cfg.rates).value)
  {
    ParseIs(cfg, DevicesFrom(cfg.outbounds, 0, map[]).value, acc);
    AllMatchedExactly(cfg, DevicesFrom(cfg.outbounds, 0, map[]).value, acc);
    RateTableExactly(cfg, acc.rates);
  }

  /** MAIN RESULT. The check accepts a configuration if and only if it is acceptable. */
  lemma ParseAcceptsExactly(cfg: Config)
    ensures Parse(cfg).Ok? <==> Acceptable(cfg)
  {
    ClientsAreAll(cfg);
    if Parse(cfg).Ok? {
      ParsesClients(cfg);
    }
    if DeclaresWell(cfg.outbounds) && InboundsOk(cfg, 0) && Consistent(ClaimsBefore(cfg, |cfg.inbounds|, 0)) {
      var acc := AllClients(cfg);
      ParseEnds(cfg, acc);
    }
  }

  // ----- What is found -----

  lemma AcceptedFacts(cfg: Config) returns (acc: Acc)
    requires Parse(cfg).Ok?
    ensures Upto(cfg, acc, |cfg.inbounds|, 0) && ApplyRateTable(acc.rates, cfg.rates).Ok?
    ensures var p := Parse(cfg).value;
            && p.identities == acc.identities && p.sources == acc.sources && p.ports == acc.ports
            && p.tokens == acc.tokens && p.rates == ApplyRateTable(acc.rates, cfg.rates).value
  {
    ParsesClients(cfg);
    acc := AllClients(cfg);
    ParseEnds(cfg, acc);
    RateTableExactly(cfg, acc.rates);
  }

  /** The identities are those of all clients of all inbounds, VLESS or not. */
  lemma IdentitiesExactly(cfg: Config, protocol: string, inbound: string, secret: string, email: string)
    requires Parse(cfg).Ok?
    ensures Identity(protocol, inbound, secret, email) in Parse(cfg).value.identities <==>
            Lists(cfg, protocol, inbound, secret, email)
  {
    var acc := AcceptedFacts(cfg);
    var x, n := Identity(protocol, inbound, secret, email), |cfg.inbounds|;
    if x in acc.identities {
      var a: nat, b: nat :| NamesBefore(cfg, a, b, n, 0, x);
      assert ListsAt(cfg, a, b, protocol, inbound, secret, email);
    }
    if Lists(cfg, protocol, inbound, secret, email) {
      var a: nat, b: nat :| ListsAt(cfg, a, b, protocol, inbound, secret, email);
      assert NamesBefore(cfg, a, b, n, 0, x);
    }
  }

  lemma StrictestIsRate(cfg: Config, id: string, r: int)
    requires IsStrictest(cfg, id, r, |cfg.inbounds|, 0) && !cfg.rates.Rates?
    ensures IsRate(cfg, id, r)
  {
    var n := |cfg.inbounds|;
    if r > 0 {
      var a: nat, b: nat :| ServesBefore(cfg, a, b, n, 0, id) && Tier(cfg, a) == r;
      assert Serves(cfg, a, b, id) && ParseLimitTag(cfg.inbounds[a].tag) == Some(r);
    }
    forall a: nat, b: nat | Serves(cfg, a, b, id) && ParseLimitTag(cfg.inbounds[a].tag).Some?
      ensures 0 < r <= ParseLimitTag(cfg.inbounds[a].tag).value
    {
      assert ServesBefore(cfg, a, b, n, 0, id);
    }
  }

  lemma TableIsRate(cfg: Config, rates: map<string, int>, id: string)
    requires ApplyRateTable(rates, cfg.rates).Ok?
    ensures ApplyRateTable(rates, cfg.rates).value.Keys == rates.Keys
    ensures cfg.rates.Rates? && id in rates ==> IsRate(cfg, id, ApplyRateTable(rates, cfg.rates).value[id])
    ensures !cfg.rates.Rates? ==> ApplyRateTable(rates, cfg.rates).value == rates
  {
  }

  /** The rates are those of the devices served, and no others. */
  lemma RatesExactly(cfg: Config, id: string)
    requires Parse(cfg).Ok?
    ensures id in Parse(cfg).value.rates <==> IsServed(cfg, id)
    ensures id in Parse(cfg).value.rates ==> IsRate(cfg, id, Parse(cfg).value.rates[id])
  {
    var acc := AcceptedFacts(cfg);
    var rates := Parse(cfg).value.rates;
    TableIsRate(cfg, acc.rates, id);
    ServedAreRated(cfg, acc.rates);
    assert id in rates <==> id in rates.Keys;
    if id in acc.rates && !cfg.rates.Rates? {
      StrictestIsRate(cfg, id, acc.rates[id]);
    }
  }

  /** The sources, ports and session tokens bound are those the client's rules claim. */
  lemma BindingsExactly(cfg: Config, tag: string)
    requires Parse(cfg).Ok?
    ensures var p, cs := Parse(cfg).value, AllClaims(cfg);
            && (tag in p.sources <==> tag in ClaimedTags(cs))
            && (forall n | 0 <= n < |cs| && cs[n].tag == tag ::
                  p.sources[tag] == cs[n].addr && tag in p.ports && (cs[n].port != 0 ==> p.ports[tag] == cs[n].port))
            && (tag in p.ports && p.ports[tag] != 0 ==>
                  exists n :: 0 <= n < |cs| && cs[n].tag == tag && cs[n].port == p.ports[tag])
            && (tag in p.tokens <==> exists n :: 0 <= n < |cs| && cs[n].tag == tag && cs[n].token != "")
            && (forall n | 0 <= n < |cs| && cs[n].tag == tag && cs[n].token != "" :: p.tokens[tag] == cs[n].token)
  {
    var acc := AcceptedFacts(cfg);
    var cs := AllClaims(cfg);
    assert Binds(acc, cs);
    forall n | 0 <= n < |cs| ensures cs[n].tag in ClaimedTags(cs) {
      assert cs[n] in cs;
    }
    if tag in acc.ports && acc.ports[tag] != 0 {
      var n :| IsAt(cs, n, tag) && cs[n].port == acc.ports[tag];
    }
    if tag in acc.tokens {
      var n :| IsAt(cs, n, tag) && cs[n].token != "";
    }
  }

  /** There is one rate. */
  lemma RateIsUnique(cfg: Config, id: string, r: int, s: int)
    requires IsRate(cfg, id, r) && IsRate(cfg, id, s)
    ensures r == s
  {
    if !cfg.rates.Rates? {
      if r > 0 {
        var k: nat, j: nat :| Serves(cfg, k, j, id) && ParseLimitTag(cfg.inbounds[k].tag) == Some(r);
        assert 0 < s <= r;
      }
      if s > 0 {
        var k: nat, j: nat :| Serves(cfg, k, j, id) && ParseLimitTag(cfg.inbounds[k].tag) == Some(s);
        assert 0 < r <= s;
      }
    }
  }

  /** The managed tags are the tags with the device prefix. */
  lemma TagsExactly(cfg: Config, tag: string)
    requires Parse(cfg).Ok?
    ensures tag in Parse(cfg).value.devices <==>
              OUTBOUND_PREFIX <= tag && exists o :: o in cfg.outbounds && o.tag == tag
  {
    DeclarationsExactly(cfg);
  }
}
