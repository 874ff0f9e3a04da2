/** What the restore guard lets back in, in terms of the two configurations. */
module RestoreGuard {
  import opened Base
  import opened DeviceConfig
  import opened DeviceCheck
  import opened DeviceEgress
  import opened EgressGuarantees
  import opened Acceptance
  import opened CheckIsExact

  /** The state authorizes generation g, as after a call that served it. */
  ghost predicate Authorizes(e: Egress, g: Config) {
    && Parse(g).Ok?
    && e.authorized == Some(Parse(g).value.identities) && e.rates == Parse(g).value.rates
    && e.managed == Parse(g).value.devices.Keys
  }

  lemma ServingAuthorizes(e: Egress, g: Config, ready: bool, draw: map<string, string>, o: Outcome, f: Egress)
    requires TransformStep(e, g, ready, draw, o, f) && o.Installed?
    ensures Authorizes(f, g)
  {
    TransformAuthorizes(e, g, ready, draw, o, f);
  }

  /** Every client of the backup, whatever its protocol, is a client of the generation, under
      the same inbound, secret and email. */
  ghost predicate NoClientReturns(backup: Config, g: Config) {
    forall protocol, inbound, secret, email ::
      Lists(backup, protocol, inbound, secret, email) ==> Lists(g, protocol, inbound, secret, email)
  }

  /** Every device it serves has the rate the generation has for it. */
  ghost predicate NoRateReturns(backup: Config, g: Config) {
    forall id | IsServed(backup, id) :: IsServed(g, id) && SameRate(backup, g, id)
  }

  ghost predicate SameRate(backup: Config, g: Config, id: string) {
    exists r :: IsRate(backup, id, r) && IsRate(g, id, r)
  }

  ghost predicate DeclaresTag(cfg: Config, tag: string) {
    OUTBOUND_PREFIX <= tag && exists o :: o in cfg.outbounds && o.tag == tag
  }

  lemma ClientsReturn(backup: Config, g: Config)
    requires Parse(backup).Ok? && Parse(g).Ok?
    ensures Parse(backup).value.identities <= Parse(g).value.identities <==> NoClientReturns(backup, g)
  {
    var p, q := Parse(backup).value, Parse(g).value;
    forall protocol, inbound, secret, email
      ensures Identity(protocol, inbound, secret, email) in p.identities <==>
                Lists(backup, protocol, inbound, secret, email)
      ensures Identity(protocol, inbound, secret, email) in q.identities <==> Lists(g, protocol, inbound, secret, email)
    {
      IdentitiesExactly(backup, protocol, inbound, secret, email);
      IdentitiesExactly(g, protocol, inbound, secret, email);
    }
    if NoClientReturns(backup, g) {
      forall x | x in p.identities ensures x in q.identities {
        assert x == Identity(x.protocol, x.inbound, x.secret, x.email);
        assert Lists(backup, x.protocol, x.inbound, x.secret, x.email);
      }
    }
  }

  lemma RateReturns(backup: Config, g: Config, id: string)
    requires Parse(backup).Ok? && Parse(g).Ok?
    ensures var p, q := Parse(backup).value, Parse(g).value;
            (id in p.rates ==> id in q.rates && q.rates[id] == p.rates[id]) <==>
              (IsServed(backup, id) ==> IsServed(g, id) && SameRate(backup, g, id))
  {
    var p, q := Parse(backup).value, Parse(g).value;
    RatesExactly(backup, id);
    RatesExactly(g, id);
    if id in p.rates && id in q.rates {
      if r :| IsRate(backup, id, r) && IsRate(g, id, r) {
        RateIsUnique(backup, id, r, p.rates[id]);
        RateIsUnique(g, id, r, q.rates[id]);
      }
    }
  }

  lemma RatesReturn(backup: Config, g: Config)
    requires Parse(backup).Ok? && Parse(g).Ok?
    ensures var p, q := Parse(backup).value, Parse(g).value;
            (forall id | id in p.rates :: id in q.rates && q.rates[id] == p.rates[id]) <==> NoRateReturns(backup, g)
  {
    var p, q := Parse(backup).value, Parse(g).value;
    forall id
      ensures (id in p.rates ==> id in q.rates && q.rates[id] == p.rates[id]) <==>
                (IsServed(backup, id) ==> IsServed(g, id) && SameRate(backup, g, id))
    {
      RateReturns(backup, g, id);
    }
  }

  lemma TagsReturn(backup: Config, g: Config)
    requires Parse(backup).Ok? && Parse(g).Ok?
    ensures Parse(backup).value.devices.Keys == Parse(g).value.devices.Keys <==>
            forall t :: DeclaresTag(backup, t) <==> DeclaresTag(g, t)
  {
    forall t
      ensures t in Parse(backup).value.devices <==> DeclaresTag(backup, t)
      ensures t in Parse(g).value.devices <==> DeclaresTag(g, t)
    {
      TagsExactly(backup, t);
      TagsExactly(g, t);
    }
  }

  /** MAIN RESULT. While a generation is authorized, a backup may be restored if and only if it
      is acceptable itself, lists no client the generation does not list, serves no device at
      another rate, and declares the very same device outbounds. */
  lemma RestorableExactly(e: Egress, g: Config, backup: Config)
    requires Authorizes(e, g)
    ensures Restorable(e, backup) <==>
            && Acceptable(backup) && NoClientReturns(backup, g) && NoRateReturns(backup, g)
            && forall t :: DeclaresTag(backup, t) <==> DeclaresTag(g, t)
  {
    ParseAcceptsExactly(backup);
    if Parse(backup).Ok? {
      ClientsReturn(backup, g);
      RatesReturn(backup, g);
      TagsReturn(backup, g);
    }
  }

  /** Nor does a client come back along any chain of rollbacks. */
  lemma NoClientReturnsLater(g: Config, chain: seq<Egress>, backup: Config)
    requires |chain| > 0 && Authorizes(chain[0], g)
    requires forall n | 0 <= n < |chain| - 1 :: RollbackStep(chain[n], chain[n + 1])
    requires Restorable(chain[|chain| - 1], backup)
    ensures NoClientReturns(backup, g)
  {
    RollbacksOnlyShrink(chain);
    ClientsReturn(backup, g);
  }
}
