/** One client's way through the rules: what the static check's scans come to. */
module RuleScan {
  import opened Base
  import opened Text
  import opened DeviceConfig
  import opened DeviceCheck
  import opened Acceptance
  import opened ClaimLog
  import Router

  // ----- Declarations -----

  lemma DeclarationIsChecked(o: Outbound)
    requires IsDeclared(o.tag)
    ensures CheckOutbound(o) == None <==> IsDeclaration(o)
  {
    if ParseLocalDeviceTag(o.tag).Some? && o.protocol == "socks" && |o.servers| == 1 && |o.servers[0].users| == 1 {
      assert o.servers == [o.servers[0]] && o.servers[0].users == [o.servers[0].users[0]];
    }
  }

  /** The declarations from i on, after those in acc. */
  ghost predicate DeclaresWellFrom(outs: seq<Outbound>, i: nat, acc: map<string, Device>) {
    && (forall n | i <= n < |outs| && IsDeclared(outs[n].tag) :: IsDeclaration(outs[n]) && outs[n].tag !in acc)
    && (forall m, n | i <= m < n < |outs| && IsDeclared(outs[m].tag) :: outs[m].tag != outs[n].tag)
  }

  lemma OneDeclaration(outs: seq<Outbound>, i: nat, acc: map<string, Device>)
    requires i < |outs| && IsDeclared(outs[i].tag) && CheckOutbound(outs[i]) == None && outs[i].tag !in acc
    ensures DeclaresWellFrom(outs, i, acc) <==> DeclaresWellFrom(outs, i + 1, acc[outs[i].tag := DeviceAt(outs, i)])
  {
    DeclarationIsChecked(outs[i]);
  }

  lemma {:induction false} DevicesExactly(outs: seq<Outbound>, i: nat, acc: map<string, Device>)
    requires i <= |outs|
    ensures DevicesFrom(outs, i, acc).Ok? <==> DeclaresWellFrom(outs, i, acc)
    decreases |outs| - i
  {
    if i < |outs| {
      if !IsDeclared(outs[i].tag) {
        DevicesExactly(outs, i + 1, acc);
        assert DeclaresWellFrom(outs, i, acc) <==> DeclaresWellFrom(outs, i + 1, acc);
      } else if CheckOutbound(outs[i]) == None && outs[i].tag !in acc {
        DevicesExactly(outs, i + 1, acc[outs[i].tag := DeviceAt(outs, i)]);
        OneDeclaration(outs, i, acc);
      } else {
        DeclarationIsChecked(outs[i]);
      }
    }
  }

  /** The device map is the configuration's declarations. */
  ghost predicate Knows(cfg: Config, devices: map<string, Device>) {
    && (forall t | t in devices ::
         IsDeclared(t)
         && ParseLocalDeviceTag(t) == Some(DeviceTag(devices[t].id, devices[t].key)))
    && (forall o | o in cfg.outbounds :: IsDeclared(o.tag) <==> o.tag in devices)
    && (forall t | t in devices :: exists o :: o in cfg.outbounds && o.tag == t)
  }

  lemma DeclaredIsKnown(cfg: Config, o: Outbound)
    requires DevicesFrom(cfg.outbounds, 0, map[]).Ok? && o in cfg.outbounds
    ensures IsDeclared(o.tag) <==> o.tag in DevicesFrom(cfg.outbounds, 0, map[]).value
  {
    var n :| 0 <= n < |cfg.outbounds| && cfg.outbounds[n] == o;
    Router.DevicesDescribed(cfg.outbounds, 0, map[]);
    if IsDeclared(o.tag) {
      Router.DeclarationsFound(cfg.outbounds, 0, map[], n);
    }
  }

  lemma KnownIsDeclared(cfg: Config, t: string)
    requires DevicesFrom(cfg.outbounds, 0, map[]).Ok? && t in DevicesFrom(cfg.outbounds, 0, map[]).value
    ensures var d := DevicesFrom(cfg.outbounds, 0, map[]).value[t];
            && IsDeclared(t) && ParseLocalDeviceTag(t) == Some(DeviceTag(d.id, d.key))
            && exists o :: o in cfg.outbounds && o.tag == t
  {
    Router.DevicesDescribed(cfg.outbounds, 0, map[]);
    assert cfg.outbounds[DevicesFrom(cfg.outbounds, 0, map[]).value[t].index] in cfg.outbounds;
  }

  lemma DevicesAreKnown(cfg: Config)
    requires DevicesFrom(cfg.outbounds, 0, map[]).Ok?
    ensures Knows(cfg, DevicesFrom(cfg.outbounds, 0, map[]).value)
  {
    var d := DevicesFrom(cfg.outbounds, 0, map[]).value;
    forall t | t in d
      ensures IsDeclared(t) && ParseLocalDeviceTag(t) == Some(DeviceTag(d[t].id, d[t].key))
      ensures exists o :: o in cfg.outbounds && o.tag == t
    {
      KnownIsDeclared(cfg, t);
    }
    forall o | o in cfg.outbounds ensures IsDeclared(o.tag) <==> o.tag in d {
      DeclaredIsKnown(cfg, o);
    }
  }

  lemma KnownTags(cfg: Config, devices: map<string, Device>, id: string)
    requires Knows(cfg, devices)
    ensures forall t :: t in TagsOf(cfg, id) <==> t in devices && devices[t].id == id
    ensures Manages(devices, id) <==> TagsOf(cfg, id) != {}
    ensures IsSourceMode(devices, id) <==> Qualified(cfg, id)
  {
    forall t ensures t in TagsOf(cfg, id) <==> t in devices && devices[t].id == id {
      if t in devices && devices[t].id == id {
        var o :| o in cfg.outbounds && o.tag == t;
        assert o.tag in TagsOf(cfg, id);
      }
    }
    forall t | t in devices ensures '~' in t <==> devices[t].key != "" {
      DeviceTagParts(t);
    }
    if Manages(devices, id) {
      var t :| t in devices && devices[t].id == id;
      assert t in TagsOf(cfg, id);
    }
    if t :| t in TagsOf(cfg, id) {
      assert Manages(devices, id);
    }
  }

  lemma DeniesAreKnown(cfg: Config, tag: string)
    ensures Drops(cfg, tag) <==> tag in DenyTags(cfg.outbounds)
  {
  }

  lemma AppliesIsConcerns(rule: Rule, email: string, inbound: string)
    ensures Applies(rule, email, inbound) <==> rule.Concerns(email, inbound)
  {
  }

  // ----- One client's rules -----

  ghost predicate CtxIs(cfg: Config, ctx: Ctx) {
    && Knows(cfg, ctx.devices) && ctx.deny == DenyTags(cfg.outbounds)
    && (ctx.sourceMode <==> Qualified(cfg, ctx.client.id))
  }

  lemma KeyIsKnown(cfg: Config, ctx: Ctx, tag: string)
    requires CtxIs(cfg, ctx) && tag in ctx.devices
    ensures ctx.devices[tag].key != "" <==> '~' in tag
  {
    DeviceTagParts(tag);
  }

  lemma OwnIsKnown(cfg: Config, ctx: Ctx, rule: Rule)
    requires CtxIs(cfg, ctx) && (rule.Token() == "" || IsSessionTag(rule.outboundTag, ctx.client.id, rule.Token()))
    ensures OwnRoute(ctx, rule) <==> IsOwn(cfg, rule, ctx.client)
    ensures rule.outboundTag in ctx.devices ==> (ctx.devices[rule.outboundTag].key != "" <==> '~' in rule.outboundTag)
  {
    KnownTags(cfg, ctx.devices, ctx.client.id);
    assert rule.Users() == [ctx.client.email] <==> rule.user == Some([ctx.client.email]);
    if rule.outboundTag in ctx.devices {
      KeyIsKnown(cfg, ctx, rule.outboundTag);
    }
  }

  lemma SessionIsChecked(cfg: Config, ctx: Ctx, rule: Rule)
    requires CtxIs(cfg, ctx) && ctx.sourceMode && rule.Token() != "" && IsSourceRoute(cfg, rule, ctx.client)
    ensures SessionRouteOk(ctx, rule)
  {
    KnownTags(cfg, ctx.devices, ctx.client.id);
  }

  lemma ClaimIsChecked(rule: Rule)
    ensures ClaimOf(rule).Ok? <==>
              && rule.source.Some? && |rule.source.value| == 1
              && rule.source.value[0].Host? && !rule.source.value[0].addr.Is4In6()
              && (rule.sourcePort.Some? ==> |rule.sourcePort.value| == 1 && ExactPort(rule.sourcePort.value[0]).Some?)
    ensures ClaimOf(rule).Ok? ==>
              ClaimOf(rule).value == (rule.source.value[0].addr,
                                      if rule.sourcePort.Some? then ExactPort(rule.sourcePort.value[0]).value else 0)
  {
  }

  lemma RouteSession(cfg: Config, ctx: Ctx, rule: Rule, acc: Acc, log: seq<Claim>)
    requires CtxIs(cfg, ctx) && ctx.sourceMode && IsSourceRoute(cfg, rule, ctx.client)
    requires BindsTokens(acc.tokens, log) && AreProper(log)
    ensures var c := ClaimAt(cfg, rule, ctx.client);
            IsProper(c) && StepSession(ctx, rule, acc) == Ok(acc.(tokens := WithToken(acc.tokens, c)))
  {
    var c := ClaimAt(cfg, rule, ctx.client);
    if rule.Token() != "" {
      SessionIsChecked(cfg, ctx, rule);
    }
    TokenAgrees(acc.tokens, log, c);
  }

  lemma RouteIsOwn(cfg: Config, ctx: Ctx, rule: Rule)
    requires CtxIs(cfg, ctx) && ctx.sourceMode && IsSourceRoute(cfg, rule, ctx.client)
    ensures OwnRoute(ctx, rule) && ctx.devices[rule.outboundTag].key != "" && !IsSourceDeny(ctx, rule)
  {
    KnownTags(cfg, ctx.devices, ctx.client.id);
    OwnIsKnown(cfg, ctx, rule);
  }

  lemma RouteSource(cfg: Config, ctx: Ctx, rule: Rule, s: Scan)
    requires CtxIs(cfg, ctx) && ctx.sourceMode && IsSourceRoute(cfg, rule, ctx.client) && OwnRoute(ctx, rule)
    ensures var c := ClaimAt(cfg, rule, ctx.client);
            if Overlaps(s.seen, c.addr, c.port) || Contradicts(s.acc, c) then StepSource(ctx, rule, s).Err?
            else StepSource(ctx, rule, s) ==
                 Ok(s.(seen := s.seen[c.addr := PortsAt(s.seen, c.addr) + {c.port}],
                       acc := s.acc.(sources := s.acc.sources[c.tag := c.addr], ports := s.acc.ports[c.tag := c.port])))
  {
    RouteIsOwn(cfg, ctx, rule);
    ClaimIsChecked(rule);
  }

  lemma AdvanceIs(s: Scan, acc: Acc, c: Claim)
    requires acc == s.acc.(tokens := WithToken(s.acc.tokens, c))
    ensures var r := s.(seen := s.seen[c.addr := PortsAt(s.seen, c.addr) + {c.port}],
                        acc := acc.(sources := acc.sources[c.tag := c.addr], ports := acc.ports[c.tag := c.port]));
            Advanced(s, c) == r.(found := true, acc := r.acc.(matched := r.acc.matched + {c.tag}),
                                 clientMatched := r.clientMatched + {c.tag})
    ensures Contradicts(acc, c) <==> Contradicts(s.acc, c)
  {
  }

  lemma StepIs(ctx: Ctx, rule: Rule, s: Scan, acc: Acc)
    requires ctx.sourceMode && rule.Concerns(ctx.client.email, ctx.inbound) && !IsSourceDeny(ctx, rule)
    requires OwnRoute(ctx, rule) && StepSession(ctx, rule, s.acc) == Ok(acc)
    ensures match StepSource(ctx, rule, s.(acc := acc))
            case Err(e) => StepRule(ctx, rule, s) == Fail(e)
            case Ok(r) =>
              StepRule(ctx, rule, s) ==
              Continue(r.(found := true, acc := r.acc.(matched := r.acc.matched + {rule.outboundTag}),
                          clientMatched := r.clientMatched + {rule.outboundTag}))
  {
  }

  /** A source route goes on with its claim, unless that overlaps or contradicts another. */
  lemma RouteGoesOn(cfg: Config, ctx: Ctx, rule: Rule, s: Scan, log: seq<Claim>)
    requires CtxIs(cfg, ctx) && ctx.sourceMode && rule.Concerns(ctx.client.email, ctx.inbound)
    requires IsSourceRoute(cfg, rule, ctx.client) && BindsTokens(s.acc.tokens, log) && AreProper(log)
    ensures var c := ClaimAt(cfg, rule, ctx.client);
            && IsProper(c)
            && if Overlaps(s.seen, c.addr, c.port) || Contradicts(s.acc, c) then StepRule(ctx, rule, s).Fail?
               else StepRule(ctx, rule, s) == Continue(Advanced(s, c))
  {
    RouteSession(cfg, ctx, rule, s.acc, log);
    RouteIsOwn(cfg, ctx, rule);
    var c, acc := ClaimAt(cfg, rule, ctx.client), StepSession(ctx, rule, s.acc).value;
    RouteSource(cfg, ctx, rule, s.(acc := acc));
    StepIs(ctx, rule, s, acc);
    AdvanceIs(s, acc, c);
  }

  /** Any other rule that applies and is no plain deny is an error. */
  lemma OtherRuleFails(cfg: Config, ctx: Ctx, rule: Rule, s: Scan)
    requires CtxIs(cfg, ctx) && ctx.sourceMode && rule.Concerns(ctx.client.email, ctx.inbound)
    requires !IsPlainDeny(cfg, rule) && !IsSourceRoute(cfg, rule, ctx.client)
    ensures StepRule(ctx, rule, s).Fail?
  {
    DeniesAreKnown(cfg, rule.outboundTag);
    ClaimIsChecked(rule);
    if StepSession(ctx, rule, s.acc).Ok? {
      OwnIsKnown(cfg, ctx, rule);
    }
  }

  lemma PlainDenyIsSourceDeny(cfg: Config, ctx: Ctx, rule: Rule)
    requires CtxIs(cfg, ctx)
    ensures IsPlainDeny(cfg, rule) <==> IsSourceDeny(ctx, rule)
  {
    DeniesAreKnown(cfg, rule.outboundTag);
  }

  lemma ClaimsNext(cfg: Config, client: Client, inbound: string, i: nat)
    requires i < |cfg.rules|
    ensures var rule, r, rest := cfg.rules[i], ClaimsOn(cfg, client, inbound, i), ClaimsOn(cfg, client, inbound, i + 1);
            if !Applies(rule, client.email, inbound) then r == rest
            else if IsPlainDeny(cfg, rule) then r == []
            else if IsSourceRoute(cfg, rule, client) then r == [ClaimAt(cfg, rule, client)] + rest
            else r == rest
  {
  }

  lemma EndsLater(cfg: Config, client: Client, inbound: string, i: nat)
    requires i < |cfg.rules| && EndsInDeny(cfg, client, inbound, i)
    ensures if !Applies(cfg.rules[i], client.email, inbound) then EndsInDeny(cfg, client, inbound, i + 1)
            else IsPlainDeny(cfg, cfg.rules[i])
                 || (IsSourceRoute(cfg, cfg.rules[i], client) && EndsInDeny(cfg, client, inbound, i + 1))
  {
    var e: nat :| i <= e < |cfg.rules| && IsEnd(cfg, client, inbound, i, e);
    if e > i {
      assert IsEnd(cfg, client, inbound, i + 1, e);
    }
  }

  lemma EndsEarlier(cfg: Config, client: Client, inbound: string, i: nat)
    requires i < |cfg.rules|
    requires var rule := cfg.rules[i];
             if Applies(rule, client.email, inbound) && IsPlainDeny(cfg, rule) then true
             else EndsInDeny(cfg, client, inbound, i + 1)
                  && (Applies(rule, client.email, inbound) ==> IsSourceRoute(cfg, rule, client))
    ensures EndsInDeny(cfg, client, inbound, i)
  {
    if Applies(cfg.rules[i], client.email, inbound) && IsPlainDeny(cfg, cfg.rules[i]) {
      assert IsEnd(cfg, client, inbound, i, i);
    } else {
      var e: nat :| i + 1 <= e < |cfg.rules| && IsEnd(cfg, client, inbound, i + 1, e);
      assert IsEnd(cfg, client, inbound, i, e);
    }
  }

  lemma EndsNext(cfg: Config, client: Client, inbound: string, i: nat)
    requires i < |cfg.rules|
    ensures EndsInDeny(cfg, client, inbound, i) <==>
            if !Applies(cfg.rules[i], client.email, inbound) then EndsInDeny(cfg, client, inbound, i + 1)
            else IsPlainDeny(cfg, cfg.rules[i])
                 || (IsSourceRoute(cfg, cfg.rules[i], client) && EndsInDeny(cfg, client, inbound, i + 1))
  {
    if EndsInDeny(cfg, client, inbound, i) {
      EndsLater(cfg, client, inbound, i);
    } else if EndsInDeny(cfg, client, inbound, i + 1)
              && (Applies(cfg.rules[i], client.email, inbound) ==> IsSourceRoute(cfg, cfg.rules[i], client)) {
      EndsEarlier(cfg, client, inbound, i);
    } else if Applies(cfg.rules[i], client.email, inbound) && IsPlainDeny(cfg, cfg.rules[i]) {
      EndsEarlier(cfg, client, inbound, i);
    }
  }

  /** A scan in progress: what this client has claimed, and what all have. */
  ghost predicate Scanned(s: Scan, mine: seq<Claim>, log: seq<Claim>) {
    && Saw(s.seen, mine) && Apart(mine) && Binds(s.acc, log) && Consistent(log) && AreProper(log)
    && s.clientMatched == ClaimedTags(mine) && (s.found <==> mine != [])
  }

  ghost predicate ScanGoes(cfg: Config, ctx: Ctx, i: nat, mine: seq<Claim>, log: seq<Claim>)
    requires i <= |cfg.rules|
  {
    var more := ClaimsOn(cfg, ctx.client, ctx.inbound, i);
    EndsInDeny(cfg, ctx.client, ctx.inbound, i) && Apart(mine + more) && Consistent(log + more)
  }

  /** What a scan from s to r leaves as it was, and what it matches. */
  ghost predicate ScanAdds(s: Scan, r: Scan, more: seq<Claim>) {
    && r.acc.identities == s.acc.identities && r.acc.rates == s.acc.rates
    && r.acc.matched == s.acc.matched + ClaimedTags(more)
  }

  /** What a scan from rule i on comes to. */
  ghost predicate ScanMeans(cfg: Config, ctx: Ctx, i: nat, s: Scan, mine: seq<Claim>, log: seq<Claim>)
    requires i <= |cfg.rules|
  {
    var r, more := ScanFrom(ctx, cfg.rules, i, s), ClaimsOn(cfg, ctx.client, ctx.inbound, i);
    && (r.Ok? && r.value.denied <==> ScanGoes(cfg, ctx, i, mine, log))
    && (r.Ok? && r.value.denied ==> Scanned(r.value, mine + more, log + more) && ScanAdds(s, r.value, more))
  }

  lemma TagsAdd(a: seq<Claim>, c: Claim, b: seq<Claim>)
    ensures ClaimedTags([c] + b) == {c.tag} + ClaimedTags(b)
    ensures a + ([c] + b) == a + [c] + b
  {
    forall t ensures t in ClaimedTags([c] + b) <==> t in {c.tag} + ClaimedTags(b) {
      if t == c.tag {
        assert c in [c] + b;
      } else if t in ClaimedTags(b) {
        var d :| d in b && d.tag == t;
        assert d in [c] + b;
      }
    }
  }

  /** One source route further. */
  lemma ScannedMore(s: Scan, mine: seq<Claim>, log: seq<Claim>, c: Claim)
    requires Scanned(s, mine, log) && IsProper(c) && !Overlaps(s.seen, c.addr, c.port) && !Contradicts(s.acc, c)
    ensures Scanned(Advanced(s, c), mine + [c], log + [c]) && ScanAdds(s, Advanced(s, c), [c])
  {
    OverlapsExactly(s.seen, mine, c);
    SeesOneMore(s.seen, mine, c);
    AgreementStays(s.acc, log, c);
    ClaimIsBound(s.acc, log, c);
    ClaimedMore(mine, c);
    assert ClaimedTags([c]) == {c.tag};
  }

  lemma StoppedClaims(s: Scan, mine: seq<Claim>, log: seq<Claim>, c: Claim, rest: seq<Claim>)
    requires Scanned(s, mine, log) && (Overlaps(s.seen, c.addr, c.port) || Contradicts(s.acc, c))
    ensures !(Apart(mine + ([c] + rest)) && Consistent(log + ([c] + rest)))
  {
    TagsAdd(mine, c, rest);
    TagsAdd(log, c, rest);
    if Overlaps(s.seen, c.addr, c.port) {
      OverlapsExactly(s.seen, mine, c);
      if Apart(mine + [c] + rest) {
        ApartPrefix(mine + [c], rest);
        assert false;
      }
    } else {
      ContradictionShows(s.acc, log, c);
      if Consistent(log + [c] + rest) {
        ConsistentPrefix(log + [c], rest);
        assert false;
      }
    }
  }

  /** The scan of a source-qualified client ends at its deny exactly when its rules are source
      routes of its own whose claims are disjoint and contradict nothing. */
  lemma {:induction false} ScanExactly(cfg: Config, ctx: Ctx, i: nat, s: Scan, mine: seq<Claim>, log: seq<Claim>)
    requires i <= |cfg.rules| && CtxIs(cfg, ctx) && ctx.sourceMode && Scanned(s, mine, log) && !s.denied
    ensures ScanMeans(cfg, ctx, i, s, mine, log)
    decreases |cfg.rules| - i
  {
    if i == |cfg.rules| {
    } else if !Applies(cfg.rules[i], ctx.client.email, ctx.inbound) {
      ScanExactly(cfg, ctx, i + 1, s, mine, log);
      SkipConcludes(cfg, ctx, i, s, mine, log);
    } else if IsPlainDeny(cfg, cfg.rules[i]) {
      DenyConcludes(cfg, ctx, i, s, mine, log);
    } else if IsSourceRoute(cfg, cfg.rules[i], ctx.client) {
      var c := RouteFacts(cfg, ctx, i, s, log);
      if Overlaps(s.seen, c.addr, c.port) || Contradicts(s.acc, c) {
        StopConcludes(cfg, ctx, i, s, mine, log, c);
      } else {
        ScannedMore(s, mine, log, c);
        ScanExactly(cfg, ctx, i + 1, Advanced(s, c), mine + [c], log + [c]);
        RouteConcludes(cfg, ctx, i, s, Advanced(s, c), mine, log, c);
      }
    } else {
      FailConcludes(cfg, ctx, i, s, mine, log);
    }
  }

  lemma StopConcludes(cfg: Config, ctx: Ctx, i: nat, s: Scan, mine: seq<Claim>, log: seq<Claim>, c: Claim)
    requires i < |cfg.rules| && Scanned(s, mine, log) && (Overlaps(s.seen, c.addr, c.port) || Contradicts(s.acc, c))
    requires ClaimsOn(cfg, ctx.client, ctx.inbound, i) == [c] + ClaimsOn(cfg, ctx.client, ctx.inbound, i + 1)
    requires StepRule(ctx, cfg.rules[i], s).Fail?
    ensures ScanMeans(cfg, ctx, i, s, mine, log)
  {
    StoppedClaims(s, mine, log, c, ClaimsOn(cfg, ctx.client, ctx.inbound, i + 1));
    assert !ScanGoes(cfg, ctx, i, mine, log);
    ScanFails(ctx, cfg.rules, i, s);
  }

  lemma ScanFails(ctx: Ctx, rules: seq<Rule>, i: nat, s: Scan)
    requires i < |rules| && StepRule(ctx, rules[i], s).Fail?
    ensures ScanFrom(ctx, rules, i, s).Err?
  {
  }

  lemma SkipConcludes(cfg: Config, ctx: Ctx, i: nat, s: Scan, mine: seq<Claim>, log: seq<Claim>)
    requires i < |cfg.rules| && !Applies(cfg.rules[i], ctx.client.email, ctx.inbound)
    requires ScanMeans(cfg, ctx, i + 1, s, mine, log)
    ensures ScanMeans(cfg, ctx, i, s, mine, log)
  {
    AppliesIsConcerns(cfg.rules[i], ctx.client.email, ctx.inbound);
    ClaimsNext(cfg, ctx.client, ctx.inbound, i);
    EndsNext(cfg, ctx.client, ctx.inbound, i);
  }

  lemma DenyConcludes(cfg: Config, ctx: Ctx, i: nat, s: Scan, mine: seq<Claim>, log: seq<Claim>)
    requires i < |cfg.rules| && CtxIs(cfg, ctx) && ctx.sourceMode && Scanned(s, mine, log)
    requires Applies(cfg.rules[i], ctx.client.email, ctx.inbound) && IsPlainDeny(cfg, cfg.rules[i])
    ensures ScanMeans(cfg, ctx, i, s, mine, log)
  {
    AppliesIsConcerns(cfg.rules[i], ctx.client.email, ctx.inbound);
    PlainDenyIsSourceDeny(cfg, ctx, cfg.rules[i]);
    ClaimsNext(cfg, ctx.client, ctx.inbound, i);
    EndsNext(cfg, ctx.client, ctx.inbound, i);
    assert ScanFrom(ctx, cfg.rules, i, s) == Ok(s.(denied := true));
    assert mine + [] == mine && log + [] == log;
  }

  lemma FailConcludes(cfg: Config, ctx: Ctx, i: nat, s: Scan, mine: seq<Claim>, log: seq<Claim>)
    requires i < |cfg.rules| && CtxIs(cfg, ctx) && ctx.sourceMode
    requires Applies(cfg.rules[i], ctx.client.email, ctx.inbound)
    requires !IsPlainDeny(cfg, cfg.rules[i]) && !IsSourceRoute(cfg, cfg.rules[i], ctx.client)
    ensures ScanMeans(cfg, ctx, i, s, mine, log)
  {
    AppliesIsConcerns(cfg.rules[i], ctx.client.email, ctx.inbound);
    OtherRuleFails(cfg, ctx, cfg.rules[i], s);
    EndsNext(cfg, ctx.client, ctx.inbound, i);
    assert ScanFrom(ctx, cfg.rules, i, s).Err?;
  }

  /** The scan after one more claim. */
  function Advanced(s: Scan, c: Claim): Scan {
    Scan(WithClaim(s.acc, c), true, s.denied, s.clientMatched + {c.tag},
         s.seen[c.addr := PortsAt(s.seen, c.addr) + {c.port}])
  }

  lemma RouteFacts(cfg: Config, ctx: Ctx, i: nat, s: Scan, log: seq<Claim>) returns (c: Claim)
    requires i < |cfg.rules| && CtxIs(cfg, ctx) && ctx.sourceMode && BindsTokens(s.acc.tokens, log) && AreProper(log)
    requires Applies(cfg.rules[i], ctx.client.email, ctx.inbound)
    requires !IsPlainDeny(cfg, cfg.rules[i]) && IsSourceRoute(cfg, cfg.rules[i], ctx.client)
    ensures IsProper(c)
    ensures ClaimsOn(cfg, ctx.client, ctx.inbound, i) == [c] + ClaimsOn(cfg, ctx.client, ctx.inbound, i + 1)
    ensures EndsInDeny(cfg, ctx.client, ctx.inbound, i) <==> EndsInDeny(cfg, ctx.client, ctx.inbound, i + 1)
    ensures if Overlaps(s.seen, c.addr, c.port) || Contradicts(s.acc, c) then StepRule(ctx, cfg.rules[i], s).Fail?
            else StepRule(ctx, cfg.rules[i], s) == Continue(Advanced(s, c))
  {
    var rule := cfg.rules[i];
    c := ClaimAt(cfg, rule, ctx.client);
    AppliesIsConcerns(rule, ctx.client.email, ctx.inbound);
    RouteGoesOn(cfg, ctx, rule, s, log);
    ClaimsNext(cfg, ctx.client, ctx.inbound, i);
    EndsNext(cfg, ctx.client, ctx.inbound, i);
  }

  lemma RouteConcludes(cfg: Config, ctx: Ctx, i: nat, s: Scan, s1: Scan, mine: seq<Claim>, log: seq<Claim>, c: Claim)
    requires i < |cfg.rules| && ScanFrom(ctx, cfg.rules, i, s) == ScanFrom(ctx, cfg.rules, i + 1, s1)
    requires ScanMeans(cfg, ctx, i + 1, s1, mine + [c], log + [c]) && ScanAdds(s, s1, [c])
    requires ClaimsOn(cfg, ctx.client, ctx.inbound, i) == [c] + ClaimsOn(cfg, ctx.client, ctx.inbound, i + 1)
    requires EndsInDeny(cfg, ctx.client, ctx.inbound, i) <==> EndsInDeny(cfg, ctx.client, ctx.inbound, i + 1)
    ensures ScanMeans(cfg, ctx, i, s, mine, log)
  {
    var rest := ClaimsOn(cfg, ctx.client, ctx.inbound, i + 1);
    TagsAdd(mine, c, rest);
    TagsAdd(log, c, rest);
    assert ClaimedTags([c]) == {c.tag};
  }
}
