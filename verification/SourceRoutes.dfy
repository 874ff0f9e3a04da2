/** The source-qualified rules of one device: they claim disjoint sources, so their
    order is irrelevant, and a qualified outbound belongs to one address. */
module SourceRoutes {
  import opened Base
  import opened DeviceConfig
  import opened DeviceCheck
  import opened Router

  /** The rules that concern the client, up to its unconditional deny. */
  function SourceRules(ctx: Ctx, rules: seq<Rule>, i: nat): seq<Rule>
    requires i <= |rules|
    decreases |rules| - i
  {
    if i == |rules| then []
    else if !rules[i].Concerns(ctx.client.email, ctx.inbound) then SourceRules(ctx, rules, i + 1)
    else if IsSourceDeny(ctx, rules[i]) then []
    else [rules[i]] + SourceRules(ctx, rules, i + 1)
  }

  /** The rule, if any, that ends the client's source rules is a deny. */
  predicate EndsInDeny(ctx: Ctx, rules: seq<Rule>, i: nat)
    requires i <= |rules|
    decreases |rules| - i
  {
    i < |rules| &&
    ((rules[i].Concerns(ctx.client.email, ctx.inbound) && IsSourceDeny(ctx, rules[i]))
     || EndsInDeny(ctx, rules, i + 1))
  }

  /** The (address, port) sets that two rules claim have no connection in common. */
  predicate Disjoint(r: Rule, q: Rule) {
    && ClaimOf(r).Ok? && ClaimOf(q).Ok?
    && var c, d := ClaimOf(r).value, ClaimOf(q).value;
    && (c.0 != d.0 || (c.1 != 0 && d.1 != 0 && c.1 != d.1))
  }

  ghost predicate IsSourceRule(ctx: Ctx, rule: Rule) {
    rule.Concerns(ctx.client.email, ctx.inbound) && OwnRoute(ctx, rule) && ClaimOf(rule).Ok?
  }

  ghost predicate PairwiseDisjoint(rules: seq<Rule>) {
    forall m, n | 0 <= m < n < |rules| :: Disjoint(rules[m], rules[n])
  }

  /** An accepted scan leaves source rules that claim pairwise disjoint sources, none of
      them claimed before, and binds every tag among them to its rule's address. */
  lemma {:induction false} ScanDisjoint(ctx: Ctx, rules: seq<Rule>, i: nat, s: Scan)
    requires i <= |rules| && ctx.sourceMode && ScanFrom(ctx, rules, i, s).Ok?
    ensures forall r | r in SourceRules(ctx, rules, i) ::
              && IsSourceRule(ctx, r)
              && !Overlaps(s.seen, ClaimOf(r).value.0, ClaimOf(r).value.1)
              && r.outboundTag in ScanFrom(ctx, rules, i, s).value.acc.sources
              && ScanFrom(ctx, rules, i, s).value.acc.sources[r.outboundTag] == ClaimOf(r).value.0
    ensures PairwiseDisjoint(SourceRules(ctx, rules, i))
    ensures !s.denied && ScanFrom(ctx, rules, i, s).value.denied ==> EndsInDeny(ctx, rules, i)
    decreases |rules| - i
  {
    if i < |rules| {
      match StepRule(ctx, rules[i], s)
      case Continue(s1) =>
        ScanDisjoint(ctx, rules, i + 1, s1);
        if rules[i].Concerns(ctx.client.email, ctx.inbound) {
          ScanKeeps(ctx, rules, i + 1, s1);
          Prepended(ctx, rules[i], SourceRules(ctx, rules, i + 1), s.seen, s1.seen);
        }
      case Break(_) =>
      case Fail(_) =>
    }
  }

  lemma Prepended(ctx: Ctx, rule: Rule, rest: seq<Rule>, before: map<Addr, set<int>>, after: map<Addr, set<int>>)
    requires ClaimOf(rule).Ok? && forall r | r in rest :: ClaimOf(r).Ok?
    requires var c := ClaimOf(rule).value; after == before[c.0 := PortsAt(before, c.0) + {c.1}]
    requires forall r | r in rest :: !Overlaps(after, ClaimOf(r).value.0, ClaimOf(r).value.1)
    requires PairwiseDisjoint(rest)
    ensures forall r | r in rest :: !Overlaps(before, ClaimOf(r).value.0, ClaimOf(r).value.1)
    ensures PairwiseDisjoint([rule] + rest)
  {
    var c := ClaimOf(rule).value;
    forall r | r in rest
      ensures !Overlaps(before, ClaimOf(r).value.0, ClaimOf(r).value.1) && Disjoint(rule, r)
    {
      var d := ClaimOf(r).value;
      assert c.1 in PortsAt(after, c.0);
      assert PortsAt(before, d.0) <= PortsAt(after, d.0);
    }
    var all := [rule] + rest;
    forall m, n | 0 <= m < n < |all| ensures Disjoint(all[m], all[n]) {
      assert all[n] in rest;
      if m > 0 {
        assert rest[m - 1] == all[m] && rest[n - 1] == all[n];
      }
    }
  }

  /** The outbound tag of the first match. */
  function Target(rules: seq<Rule>, conn: Conn): Option<string> {
    match FirstMatch(rules, 0, conn)
    case Some(m) => Some(rules[m].outboundTag)
    case None => None
  }

  ghost predicate ConnIn(ctx: Ctx, conn: Conn) {
    conn.inbound == ctx.inbound && conn.email == ctx.client.email
  }

  lemma NoCommonMatch(ctx: Ctx, r: Rule, q: Rule, conn: Conn)
    requires ConnIn(ctx, conn) && IsSourceRule(ctx, r) && IsSourceRule(ctx, q) && Disjoint(r, q)
    ensures !(Matches(r, conn) && Matches(q, conn))
  {
    ClaimIsMatch(ctx, r, conn);
    ClaimIsMatch(ctx, q, conn);
  }

  lemma SameMembers(p: seq<Rule>, q: seq<Rule>, m: nat) returns (n: nat)
    requires multiset(p) == multiset(q) && m < |p|
    ensures n < |q| && q[n] == p[m]
  {
    assert p[m] in multiset(q);
    n :| 0 <= n < |q| && q[n] == p[m];
  }

  /** Disjoint rules have at most one match, so any order of them finds the same one. */
  lemma OrderIsIrrelevant(ctx: Ctx, q: seq<Rule>, p: seq<Rule>, conn: Conn)
    requires ConnIn(ctx, conn) && (forall r | r in q :: IsSourceRule(ctx, r)) && PairwiseDisjoint(q)
    requires multiset(p) == multiset(q)
    ensures Target(p, conn) == Target(q, conn)
  {
    var fp, fq := FirstMatch(p, 0, conn), FirstMatch(q, 0, conn);
    if fp.Some? {
      var n := SameMembers(p, q, fp.value);
      assert fq.Some?;
      if fq.value != n {
        assert q[n] in q && q[fq.value] in q;
        NoCommonMatch(ctx, q[fq.value], q[n], conn);
      }
    } else if fq.Some? {
      var n := SameMembers(q, p, fq.value);
    }
  }

  /** Routing the whole list is routing the source rules, with the deny as last resort. */
  lemma {:induction false} WholeRoute(ctx: Ctx, rules: seq<Rule>, i: nat, conn: Conn)
    requires i <= |rules| && ConnIn(ctx, conn) && EndsInDeny(ctx, rules, i)
    ensures FirstMatch(rules, i, conn).Some?
    ensures var tag := rules[FirstMatch(rules, i, conn).value].outboundTag;
            match Target(SourceRules(ctx, rules, i), conn)
            case Some(t) => tag == t
            case None => tag in ctx.deny
    decreases |rules| - i
  {
    var r := rules[i];
    if !r.Concerns(ctx.client.email, ctx.inbound) {
      WholeRoute(ctx, rules, i + 1, conn);
    } else if !IsSourceDeny(ctx, r) {
      var rest := SourceRules(ctx, rules, i + 1);
      FirstOfConcat(r, rest, conn);
      if !Matches(r, conn) {
        WholeRoute(ctx, rules, i + 1, conn);
      }
    }
  }

  lemma FirstOfConcat(r: Rule, rest: seq<Rule>, conn: Conn)
    ensures Target([r] + rest, conn) == if Matches(r, conn) then Some(r.outboundTag) else Target(rest, conn)
  {
    var all := [r] + rest;
    var f, g := FirstMatch(all, 0, conn), FirstMatch(rest, 0, conn);
    assert all[0] == r;
    if !Matches(r, conn) {
      if f.Some? {
        assert all[f.value] == rest[f.value - 1];
      }
      if g.Some? {
        assert all[g.value + 1] == rest[g.value];
      }
      if f.Some? && g.Some? {
        assert f.value - 1 >= g.value;
        assert g.value + 1 >= f.value;
      }
    }
  }

  /** MAIN RESULT. If the check accepts one order of a source-qualified device's rules,
      every other order of the same rules (with any other rules around them, as long as
      the client's deny stays behind) sends each connection to the same outbound, or
      both orders deny it. */
  lemma ReorderedRoutesAlike(ctx: Ctx, rules: seq<Rule>, other: seq<Rule>, s: Scan, conn: Conn)
    requires ctx.sourceMode && ConnIn(ctx, conn) && !s.denied
    requires ScanFrom(ctx, rules, 0, s).Ok? && ScanFrom(ctx, rules, 0, s).value.denied
    requires EndsInDeny(ctx, other, 0)
    requires multiset(SourceRules(ctx, other, 0)) == multiset(SourceRules(ctx, rules, 0))
    ensures Target(rules, conn).Some? && Target(other, conn).Some?
    ensures Target(rules, conn) == Target(other, conn)
            || (Target(rules, conn).value in ctx.deny && Target(other, conn).value in ctx.deny)
  {
    ScanDisjoint(ctx, rules, 0, s);
    OrderIsIrrelevant(ctx, SourceRules(ctx, rules, 0), SourceRules(ctx, other, 0), conn);
    WholeRoute(ctx, rules, 0, conn);
    WholeRoute(ctx, other, 0, conn);
  }

  /** Across all clients and inbounds of an accepted configuration, two source rules
      with one outbound tag name one address. */
  lemma OneAddressPerTag(cfg: Config, k1: nat, j1: nat, r1: Rule, k2: nat, j2: nat, r2: Rule)
    requires Parse(cfg).Ok? && HasClient(cfg, k1, j1) && HasClient(cfg, k2, j2)
    requires RoutesManaged(cfg, k1, j1) && RoutesManaged(cfg, k2, j2)
    requires r1 in SourceRules(CtxOf(cfg, k1, j1), cfg.rules, 0) && r2 in SourceRules(CtxOf(cfg, k2, j2), cfg.rules, 0)
    requires r1.outboundTag == r2.outboundTag
    ensures ClaimOf(r1).Ok? && ClaimOf(r2).Ok? && ClaimOf(r1).value.0 == ClaimOf(r2).value.0
  {
    BoundAddress(cfg, k1, j1, r1);
    BoundAddress(cfg, k2, j2, r2);
  }

  /** The j-th client of the k-th inbound is a source-qualified device. */
  ghost predicate RoutesManaged(cfg: Config, k: nat, j: nat)
    requires Parse(cfg).Ok? && HasClient(cfg, k, j)
  {
    && cfg.inbounds[k].protocol == "vless"
    && Manages(Parse(cfg).value.devices, cfg.inbounds[k].clients[j].id)
    && CtxOf(cfg, k, j).sourceMode
  }

  lemma BoundAddress(cfg: Config, k: nat, j: nat, r: Rule)
    requires Parse(cfg).Ok? && HasClient(cfg, k, j) && RoutesManaged(cfg, k, j)
    requires r in SourceRules(CtxOf(cfg, k, j), cfg.rules, 0)
    ensures ClaimOf(r).Ok? && r.outboundTag in Parse(cfg).value.sources
    ensures Parse(cfg).value.sources[r.outboundTag] == ClaimOf(r).value.0
  {
    var a := Reached(cfg, k, j);
    var acc1 := a.(identities := a.identities + {IdentityOf(cfg.inbounds[k], cfg.inbounds[k].clients[j])});
    ScanDisjoint(CtxOf(cfg, k, j), cfg.rules, 0, FreshScan(acc1));
  }
}
