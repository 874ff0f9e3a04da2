/** What the static check's verdict on one client comes to. */
module ClientCheck {
  import opened Base
  import opened DeviceConfig
  import opened DeviceCheck
  import opened Acceptance
  import opened ClaimLog
  import opened RuleScan

  // ----- One client without source-qualified outbounds -----

  lemma DirectRule(cfg: Config, ctx: Ctx, rule: Rule, s: Scan)
    requires CtxIs(cfg, ctx) && !ctx.sourceMode && rule.Concerns(ctx.client.email, ctx.inbound)
    ensures if IsDirectRoute(cfg, rule, ctx.client) then
              StepRule(ctx, rule, s) ==
              Break(s.(found := true, acc := s.acc.(matched := s.acc.matched + {rule.outboundTag}),
                       clientMatched := s.clientMatched + {rule.outboundTag}))
            else StepRule(ctx, rule, s).Fail?
  {
    if rule.Token() == "" {
      OwnIsKnown(cfg, ctx, rule);
    }
  }

  /** Where the scan from `from` on ends. */
  ghost predicate DirectMeans(cfg: Config, ctx: Ctx, from: nat, s: Scan)
    requires from <= |cfg.rules|
  {
    var r := ScanFrom(ctx, cfg.rules, from, s);
    && (r.Ok? && r.value.found <==> exists i: nat :: GoesDirect(cfg, ctx.client, ctx.inbound, from, i))
    && forall i: nat | GoesDirect(cfg, ctx.client, ctx.inbound, from, i) ::
         r == Ok(s.(found := true, acc := s.acc.(matched := s.acc.matched + {cfg.rules[i].outboundTag}),
                    clientMatched := s.clientMatched + {cfg.rules[i].outboundTag}))
  }

  lemma SameDirect(cfg: Config, client: Client, inbound: string, from: nat, i: nat)
    requires from < |cfg.rules| && !Applies(cfg.rules[from], client.email, inbound)
    ensures GoesDirect(cfg, client, inbound, from, i) <==> GoesDirect(cfg, client, inbound, from + 1, i)
  {
  }

  lemma DirectHere(cfg: Config, ctx: Ctx, from: nat, s: Scan)
    requires from < |cfg.rules| && CtxIs(cfg, ctx) && !ctx.sourceMode && !s.found
    requires Applies(cfg.rules[from], ctx.client.email, ctx.inbound)
    ensures DirectMeans(cfg, ctx, from, s)
  {
    AppliesIsConcerns(cfg.rules[from], ctx.client.email, ctx.inbound);
    DirectRule(cfg, ctx, cfg.rules[from], s);
    forall i: nat | GoesDirect(cfg, ctx.client, ctx.inbound, from, i) ensures i == from {
    }
    if IsDirectRoute(cfg, cfg.rules[from], ctx.client) {
      assert GoesDirect(cfg, ctx.client, ctx.inbound, from, from);
    }
  }

  lemma DirectLater(cfg: Config, ctx: Ctx, from: nat, s: Scan)
    requires from < |cfg.rules| && !Applies(cfg.rules[from], ctx.client.email, ctx.inbound)
    requires DirectMeans(cfg, ctx, from + 1, s)
    ensures DirectMeans(cfg, ctx, from, s)
  {
    AppliesIsConcerns(cfg.rules[from], ctx.client.email, ctx.inbound);
    assert ScanFrom(ctx, cfg.rules, from, s) == ScanFrom(ctx, cfg.rules, from + 1, s);
    var next := from + 1;
    if i: nat :| GoesDirect(cfg, ctx.client, ctx.inbound, next, i) {
      SameDirect(cfg, ctx.client, ctx.inbound, from, i);
    }
    forall i: nat | GoesDirect(cfg, ctx.client, ctx.inbound, from, i)
      ensures GoesDirect(cfg, ctx.client, ctx.inbound, from + 1, i)
    {
      SameDirect(cfg, ctx.client, ctx.inbound, from, i);
    }
  }

  lemma NothingDirect(cfg: Config, ctx: Ctx, s: Scan)
    requires !s.found
    ensures DirectMeans(cfg, ctx, |cfg.rules|, s)
  {
    forall i: nat ensures !GoesDirect(cfg, ctx.client, ctx.inbound, |cfg.rules|, i) {
    }
  }

  /** Such a client's scan finds its route exactly when there is one. */
  lemma {:induction false} DirectExactly(cfg: Config, ctx: Ctx, from: nat, s: Scan)
    requires from <= |cfg.rules| && CtxIs(cfg, ctx) && !ctx.sourceMode && !s.found
    ensures DirectMeans(cfg, ctx, from, s)
    decreases |cfg.rules| - from
  {
    if from == |cfg.rules| {
      NothingDirect(cfg, ctx, s);
    } else if Applies(cfg.rules[from], ctx.client.email, ctx.inbound) {
      DirectHere(cfg, ctx, from, s);
    } else {
      DirectExactly(cfg, ctx, from + 1, s);
      DirectLater(cfg, ctx, from, s);
    }
  }

  // ----- One client served -----

  /** The client's checks, beside the log so far. */
  ghost predicate ServedWell(cfg: Config, inbound: Inbound, client: Client, log: seq<Claim>) {
    && ClientOk(cfg, inbound, client) && Consistent(log + ClientClaims(cfg, inbound, client))
  }

  /** Facts bound by the log, before and after. */
  ghost predicate Logged(acc: Acc, log: seq<Claim>) { Binds(acc, log) && Consistent(log) && AreProper(log) }

  /** What serving a client adds. */
  ghost predicate Served(cfg: Config, inbound: Inbound, client: Client, acc: Acc, r: Acc) {
    && r.identities == acc.identities && r.matched == acc.matched + TagsOf(cfg, client.id)
    && r.rates == StricterTier(acc.rates, client.id, ParseLimitTag(inbound.tag).GetOr(0))
  }

  ghost predicate EnvIs(cfg: Config, env: Env) {
    env.cfg == cfg && Knows(cfg, env.devices) && env.deny == DenyTags(cfg.outbounds)
  }

  lemma CtxIsKnown(cfg: Config, env: Env, inbound: Inbound, client: Client)
    requires EnvIs(cfg, env)
    ensures CtxIs(cfg, CtxFor(env, inbound, client))
  {
    KnownTags(cfg, env.devices, client.id);
  }

  lemma EmptyScan(acc: Acc, log: seq<Claim>)
    requires Logged(acc, log)
    ensures Scanned(FreshScan(acc), [], log)
  {
  }

  lemma ClaimedAreOwn(cfg: Config, client: Client, inbound: string, i: nat)
    requires i <= |cfg.rules|
    ensures ClaimedTags(ClaimsOn(cfg, client, inbound, i)) <= TagsOf(cfg, client.id)
    decreases |cfg.rules| - i
  {
    if i < |cfg.rules| {
      ClaimedAreOwn(cfg, client, inbound, i + 1);
      var rest := ClaimsOn(cfg, client, inbound, i + 1);
      if IsSourceRoute(cfg, cfg.rules[i], client) {
        TagsAdd([], ClaimAt(cfg, cfg.rules[i], client), rest);
      }
    }
  }

  /** The last test of a managed client: each of its outbounds was matched. */
  lemma ReachExactly(cfg: Config, devices: map<string, Device>, id: string, reached: set<string>)
    requires Knows(cfg, devices)
    ensures (exists tag | tag in devices :: devices[tag].id == id && tag !in reached) <==> !(TagsOf(cfg, id) <= reached)
  {
    KnownTags(cfg, devices, id);
    if !(TagsOf(cfg, id) <= reached) {
      var t :| t in TagsOf(cfg, id) && t !in reached;
      assert t in devices && devices[t].id == id;
    }
  }

  /** CheckManaged, given what the scan found. */
  lemma ManagedExactly(cfg: Config, env: Env, inbound: Inbound, client: Client, acc: Acc)
    requires EnvIs(cfg, env)
    ensures var r, scan := CheckManaged(env, inbound, client, acc),
                           ScanFrom(CtxFor(env, inbound, client), cfg.rules, 0, FreshScan(acc));
            && (r.Ok? <==> IsNamed(client) && scan.Ok? && scan.value.found
                           && (Qualified(cfg, client.id) ==> scan.value.denied)
                           && TagsOf(cfg, client.id) <= scan.value.clientMatched)
            && (r.Ok? ==> r.value == scan.value.acc.(rates := StricterTier(scan.value.acc.rates, client.id,
                                                                           ParseLimitTag(inbound.tag).GetOr(0))))
  {
    var scan := ScanFrom(CtxFor(env, inbound, client), cfg.rules, 0, FreshScan(acc));
    CtxIsKnown(cfg, env, inbound, client);
    if scan.Ok? {
      ReachExactly(cfg, env.devices, client.id, scan.value.clientMatched);
    }
  }

  lemma ScanOfQualified(cfg: Config, ctx: Ctx, acc: Acc, log: seq<Claim>)
    requires CtxIs(cfg, ctx) && ctx.sourceMode && Logged(acc, log)
    ensures var r, cs := ScanFrom(ctx, cfg.rules, 0, FreshScan(acc)), ClaimsOn(cfg, ctx.client, ctx.inbound, 0);
            && (r.Ok? && r.value.denied <==>
                  EndsInDeny(cfg, ctx.client, ctx.inbound, 0) && Apart(cs) && Consistent(log + cs))
            && (r.Ok? && r.value.denied ==>
                  && Logged(r.value.acc, log + cs) && ScanAdds(FreshScan(acc), r.value, cs)
                  && r.value.clientMatched == ClaimedTags(cs) && (r.value.found <==> cs != []))
  {
    EmptyScan(acc, log);
    ScanExactly(cfg, ctx, 0, FreshScan(acc), [], log);
    assert [] + ClaimsOn(cfg, ctx.client, ctx.inbound, 0) == ClaimsOn(cfg, ctx.client, ctx.inbound, 0);
  }

  /** What the checks of one client come to, beside the log so far. */
  ghost predicate ClientMeans(cfg: Config, inbound: Inbound, client: Client, acc: Acc, log: seq<Claim>,
                              r: Result<Acc, ParseError>)
  {
    && (r.Ok? <==> ServedWell(cfg, inbound, client, log))
    && (r.Ok? ==>
       Logged(r.value, log + ClientClaims(cfg, inbound, client))
       && Served(cfg, inbound, client, acc, r.value))
  }

  lemma QualifiedMeans(cfg: Config, inbound: Inbound, client: Client, log: seq<Claim>)
    requires inbound.protocol == "vless" && TagsOf(cfg, client.id) != {} && Qualified(cfg, client.id)
    ensures var cs := ClaimsOn(cfg, client, inbound.tag, 0);
            && ClientClaims(cfg, inbound, client) == cs
            && (ServedWell(cfg, inbound, client, log) <==>
                  && IsNamed(client) && EndsInDeny(cfg, client, inbound.tag, 0) && Apart(cs) && Consistent(log + cs)
                  && TagsOf(cfg, client.id) <= ClaimedTags(cs))
            && (TagsOf(cfg, client.id) <= ClaimedTags(cs) ==> cs != [] && ClaimedTags(cs) == TagsOf(cfg, client.id))
  {
    ClaimedAreOwn(cfg, client, inbound.tag, 0);
  }

  lemma QualifiedExactly(cfg: Config, env: Env, inbound: Inbound, client: Client, acc: Acc, log: seq<Claim>)
    requires EnvIs(cfg, env) && Logged(acc, log) && inbound.protocol == "vless"
    requires TagsOf(cfg, client.id) != {} && Qualified(cfg, client.id)
    ensures ClientMeans(cfg, inbound, client, acc, log, CheckManaged(env, inbound, client, acc))
  {
    CtxIsKnown(cfg, env, inbound, client);
    ScanOfQualified(cfg, CtxFor(env, inbound, client), acc, log);
    ManagedExactly(cfg, env, inbound, client, acc);
    QualifiedMeans(cfg, inbound, client, log);
  }

  lemma UnqualifiedExactly(cfg: Config, env: Env, inbound: Inbound, client: Client, acc: Acc, log: seq<Claim>)
    requires EnvIs(cfg, env) && Logged(acc, log) && inbound.protocol == "vless"
    requires TagsOf(cfg, client.id) != {} && !Qualified(cfg, client.id)
    ensures ClientMeans(cfg, inbound, client, acc, log, CheckManaged(env, inbound, client, acc))
  {
    var ctx := CtxFor(env, inbound, client);
    CtxIsKnown(cfg, env, inbound, client);
    DirectExactly(cfg, ctx, 0, FreshScan(acc));
    ManagedExactly(cfg, env, inbound, client, acc);
    assert log + ClientClaims(cfg, inbound, client) == log;
    var r := ScanFrom(ctx, cfg.rules, 0, FreshScan(acc));
    if r.Ok? && r.value.found {
      var i: nat :| GoesDirect(cfg, client, inbound.tag, 0, i);
      OnlyFirst(cfg, client, inbound, i);
      assert r.value.clientMatched == {cfg.rules[i].outboundTag};
      assert cfg.rules[i].outboundTag in TagsOf(cfg, client.id);
    }
    if DirectOk(cfg, inbound, client) {
      var i: nat :| GoesDirect(cfg, client, inbound.tag, 0, i) && TagsOf(cfg, client.id) == {cfg.rules[i].outboundTag};
      assert GoesDirect(cfg, client, inbound.tag, 0, i);
    }
  }

  /** There is one first rule. */
  lemma OnlyFirst(cfg: Config, client: Client, inbound: Inbound, i: nat)
    requires GoesDirect(cfg, client, inbound.tag, 0, i)
    ensures DirectOk(cfg, inbound, client) <==> TagsOf(cfg, client.id) == {cfg.rules[i].outboundTag}
  {
    forall h: nat | GoesDirect(cfg, client, inbound.tag, 0, h) ensures h == i {
    }
  }

  // ----- One client not served -----

  lemma ControlIsKnown(cfg: Config, env: Env, inbound: Inbound)
    requires EnvIs(cfg, env)
    ensures Controlled(env, inbound) <==> IsControlled(cfg, inbound)
  {
    if o :| o in cfg.outbounds && OUTBOUND_PREFIX <= o.tag {
      assert o.tag in env.devices;
    }
    if env.devices != map[] {
      var t := SomeMember(env.devices.Keys);
      var o :| o in cfg.outbounds && o.tag == t;
    }
    forall r | r in cfg.rules ensures Drops(cfg, r.outboundTag) <==> r.outboundTag in env.deny {
      DeniesAreKnown(cfg, r.outboundTag);
    }
    if r :| r in cfg.rules && r.inboundTag.Some? && inbound.tag in r.inboundTag.value && Drops(cfg, r.outboundTag) {
      assert inbound.tag in r.Inbounds();
    }
    if r :| r in cfg.rules && inbound.tag in r.Inbounds() && r.outboundTag in env.deny {
      assert r.inboundTag.Some?;
    }
  }

  lemma {:induction false} FallbackExactly(cfg: Config, i: nat, inbound: string)
    requires i <= |cfg.rules|
    ensures FallbackFrom(cfg.rules, i, inbound, DenyTags(cfg.outbounds)) <==> HasFallback(cfg, inbound, i)
    decreases |cfg.rules| - i
  {
    if i < |cfg.rules| {
      var rule := cfg.rules[i];
      DeniesAreKnown(cfg, rule.outboundTag);
      if !IsCatchAll(rule, inbound) {
        FallbackExactly(cfg, i + 1, inbound);
        FallbackLater(cfg, i, inbound);
      } else {
        FallbackHere(cfg, i, inbound);
        assert |rule.inboundTag.value| == 1 ==> rule.inboundTag.value == [rule.inboundTag.value[0]];
      }
    }
  }

  lemma FallbackLater(cfg: Config, i: nat, inbound: string)
    requires i < |cfg.rules| && !IsCatchAll(cfg.rules[i], inbound)
    ensures HasFallback(cfg, inbound, i) <==> HasFallback(cfg, inbound, i + 1)
  {
    if f: nat :| i <= f < |cfg.rules| && IsFallback(cfg, inbound, i, f) {
      assert IsFallback(cfg, inbound, i + 1, f);
    }
    var next := i + 1;
    if f: nat :| next <= f < |cfg.rules| && IsFallback(cfg, inbound, next, f) {
      assert IsFallback(cfg, inbound, i, f);
    }
  }

  lemma FallbackHere(cfg: Config, i: nat, inbound: string)
    requires i < |cfg.rules| && IsCatchAll(cfg.rules[i], inbound)
    ensures HasFallback(cfg, inbound, i) <==>
            IsPlainDeny(cfg, cfg.rules[i]) && cfg.rules[i].user == None && cfg.rules[i].inboundTag == Some([inbound])
  {
    if f: nat :| i <= f < |cfg.rules| && IsFallback(cfg, inbound, i, f) {
      assert f == i;
    }
    if IsPlainDeny(cfg, cfg.rules[i]) && cfg.rules[i].user == None && cfg.rules[i].inboundTag == Some([inbound]) {
      assert IsFallback(cfg, inbound, i, i);
    }
  }

  /** What a client without outbound is answered: whether its first rule denies it, and whether
      the fallback that asks for is there. */
  ghost predicate DeniedMeans(cfg: Config, client: Client, inbound: string, from: nat)
    requires from <= |cfg.rules|
  {
    var r := DeniedFrom(cfg.rules, from, inbound, client.email, DenyTags(cfg.outbounds));
    && (r != Ok(false) <==> exists i: nat :: IsDenied(cfg, client, inbound, from, i))
    && forall i: nat | IsDenied(cfg, client, inbound, from, i) :: r == Ok(true) <==> HasFallback(cfg, inbound, i + 1)
  }

  lemma DeniedLater(cfg: Config, client: Client, inbound: string, from: nat)
    requires from < |cfg.rules| && !Applies(cfg.rules[from], client.email, inbound)
    requires DeniedMeans(cfg, client, inbound, from + 1)
    ensures DeniedMeans(cfg, client, inbound, from)
  {
    AppliesIsConcerns(cfg.rules[from], client.email, inbound);
    var next := from + 1;
    if i: nat :| IsDenied(cfg, client, inbound, next, i) {
      assert IsDenied(cfg, client, inbound, from, i);
    }
    forall i: nat | IsDenied(cfg, client, inbound, from, i) ensures IsDenied(cfg, client, inbound, from + 1, i) {
    }
  }

  lemma DeniedHere(cfg: Config, client: Client, inbound: string, from: nat)
    requires from < |cfg.rules| && Applies(cfg.rules[from], client.email, inbound)
    ensures DeniedMeans(cfg, client, inbound, from)
  {
    AppliesIsConcerns(cfg.rules[from], client.email, inbound);
    DeniesAreKnown(cfg, cfg.rules[from].outboundTag);
    FallbackExactly(cfg, from + 1, inbound);
    forall i: nat | IsDenied(cfg, client, inbound, from, i) ensures i == from {
    }
    if IsUserDeny(cfg, cfg.rules[from], client) {
      assert IsDenied(cfg, client, inbound, from, from);
    }
  }

  lemma {:induction false} DeniedExactly(cfg: Config, client: Client, inbound: string, from: nat)
    requires from <= |cfg.rules|
    ensures DeniedMeans(cfg, client, inbound, from)
    decreases |cfg.rules| - from
  {
    if from == |cfg.rules| {
      forall i: nat ensures !IsDenied(cfg, client, inbound, from, i) {
      }
    } else if Applies(cfg.rules[from], client.email, inbound) {
      DeniedHere(cfg, client, inbound, from);
    } else {
      DeniedExactly(cfg, client, inbound, from + 1);
      DeniedLater(cfg, client, inbound, from);
    }
  }

  /** The answer, and what it means for a client without outbound. */
  lemma UnservedExactly(cfg: Config, env: Env, inbound: Inbound, client: Client)
    requires EnvIs(cfg, env)
    ensures var denied := ExplicitlyDenied(cfg.rules, inbound.tag, client, env.deny);
            denied.Ok? && (denied.value || !Controlled(env, inbound)) <==> UnservedOk(cfg, inbound, client)
  {
    ControlIsKnown(cfg, env, inbound);
    DeniedExactly(cfg, client, inbound.tag, 0);
    var r := DeniedFrom(cfg.rules, 0, inbound.tag, client.email, env.deny);
    if client.id != "" && IsNamed(client) {
      assert ExplicitlyDenied(cfg.rules, inbound.tag, client, env.deny) == r;
      if i: nat :| IsDenied(cfg, client, inbound.tag, 0, i) {
        OnlyDenied(cfg, client, inbound, i);
        assert r != Ok(false) && (r == Ok(true) <==> HasFallback(cfg, inbound.tag, i + 1));
        assert r.Ok? ==> r == Ok(r.value) && r.value;
      } else {
        assert r == Ok(false);
      }
    }
  }

  lemma OnlyDenied(cfg: Config, client: Client, inbound: Inbound, i: nat)
    requires IsDenied(cfg, client, inbound.tag, 0, i) && client.id != "" && IsNamed(client)
    ensures UnservedOk(cfg, inbound, client) <==> HasFallback(cfg, inbound.tag, i + 1)
  {
    forall h: nat | IsDenied(cfg, client, inbound.tag, 0, h) ensures h == i {
    }
  }

  // ----- Every client -----

  /** What one client adds to the facts gathered. */
  ghost predicate Noted(cfg: Config, inbound: Inbound, client: Client, acc: Acc, r: Acc) {
    && r.identities == acc.identities + {IdentityOf(inbound, client)}
    && if inbound.protocol == "vless" && TagsOf(cfg, client.id) != {} then
         && r.matched == acc.matched + TagsOf(cfg, client.id)
         && r.rates == StricterTier(acc.rates, client.id, ParseLimitTag(inbound.tag).GetOr(0))
       else r.matched == acc.matched && r.rates == acc.rates
  }

  lemma ManagedMeans(cfg: Config, env: Env, inbound: Inbound, client: Client, acc: Acc, log: seq<Claim>)
    requires EnvIs(cfg, env) && Logged(acc, log) && inbound.protocol == "vless" && TagsOf(cfg, client.id) != {}
    ensures ClientMeans(cfg, inbound, client, acc, log, CheckManaged(env, inbound, client, acc))
  {
    if Qualified(cfg, client.id) {
      QualifiedExactly(cfg, env, inbound, client, acc, log);
    } else {
      UnqualifiedExactly(cfg, env, inbound, client, acc, log);
    }
  }

  lemma ClientExactly(cfg: Config, env: Env, inbound: Inbound, client: Client, acc: Acc, log: seq<Claim>)
    requires EnvIs(cfg, env) && Logged(acc, log)
    ensures var r := CheckClient(env, inbound, client, acc);
            && (r.Ok? <==> ServedWell(cfg, inbound, client, log))
            && (r.Ok? ==>
               Logged(r.value, log + ClientClaims(cfg, inbound, client))
               && Noted(cfg, inbound, client, acc, r.value))
  {
    KnownTags(cfg, env.devices, client.id);
    if inbound.protocol == "vless" && TagsOf(cfg, client.id) != {} {
      var acc1 := acc.(identities := acc.identities + {IdentityOf(inbound, client)});
      assert Logged(acc1, log);
      ManagedMeans(cfg, env, inbound, client, acc1, log);
    } else {
      UnservedExactly(cfg, env, inbound, client);
      assert log + ClientClaims(cfg, inbound, client) == log;
    }
  }
}
