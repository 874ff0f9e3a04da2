/** One source-qualified device on one inbound, in the form of the control plane's address and
    session declarations (pkg/devicebandwidth/address_declarations.go, session_declarations.go)
    but under any key, for the concrete runs that show where a promise fails. */
module SourceExample {
  import opened Base
  import opened Text
  import opened DeviceConfig
  import opened DeviceCheck

  const ID: string := "u"

  function TagOf(key: string): string { OUTBOUND_PREFIX + (ID + ['~'] + key) }

  function TheClient(): Client { Client(ID, "", DeviceUser(ID), "", 0) }

  function TheOutbound(key: string): Outbound {
    Outbound(TagOf(key), "socks", [SocksServer(LISTEN_IP, SOCKS_PORT, [SocksUser(ID, PLACEHOLDER)])], "")
  }

  function Route(key: string, a: Addr, port: Option<string>, token: Option<string>): Rule {
    Rule("field", Some([DeviceUser(ID)]), None, TagOf(key), "", Some([Host(a, true)]),
         if port.Some? then Some([port.value]) else None, token, "")
  }

  const BLOCK: Outbound := Outbound("block", "blackhole", [], "")
  const FALLBACK: Rule := Rule("field", None, Some(["in"]), "block", "", None, None, None, "")

  /** A controlled inbound with these clients, rules and device outbounds before its deny. */
  function WithDeny(outs: seq<Outbound>, clients: seq<Client>, rules: seq<Rule>): Config {
    Config([BLOCK] + outs, [Inbound("in", "vless", clients, "")], rules + [FALLBACK], 0, NoRates, "")
  }

  function One(key: string, a: Addr, port: Option<string>, token: Option<string>): Config {
    WithDeny([TheOutbound(key)], [TheClient()], [Route(key, a, port, token)])
  }

  lemma OneShape(key: string, a: Addr, port: Option<string>, token: Option<string>)
    ensures var c := One(key, a, port, token);
            && c.outbounds == [BLOCK, TheOutbound(key)] && c.rules == [Route(key, a, port, token), FALLBACK]
            && c.balancers == 0
  {
  }

  /** A key, a source and a session that the check has nothing against. */
  predicate Declarable(key: string, a: Addr, port: Option<string>, token: Option<string>) {
    && 16 <= |key| <= 64 && |key| % 2 == 0 && (forall i | 0 <= i < |key| :: IsHex(key[i]))
    && !a.Is4In6() && (port.Some? ==> ExactPort(port.value).Some?)
    && (token.Some? ==> token.value == key && IsSessionToken(key) && port.Some?)
  }

  function PortIn(port: Option<string>): int {
    if port.Some? && ExactPort(port.value).Some? then ExactPort(port.value).value else 0
  }

  function ParsedOne(key: string, a: Addr, port: Option<string>, token: Option<string>): Parsed {
    Parsed(map[TagOf(key) := Device(1, ID, key)], {Identity("vless", "in", ID, DeviceUser(ID))}, map[TagOf(key) := a],
           map[TagOf(key) := PortIn(port)], if token.Some? then map[TagOf(key) := key] else map[], map[ID := 0])
  }

  lemma TagParses(key: string)
    requires 16 <= |key| <= 64 && |key| % 2 == 0 && forall i | 0 <= i < |key| :: IsHex(key[i])
    ensures IsDeclared(TagOf(key)) && ParseLocalDeviceTag(TagOf(key)) == Some(DeviceTag(ID, key))
    ensures !IsDeclared("block")
  {
    var tag := TagOf(key);
    assert tag[|OUTBOUND_PREFIX|..] == ID + ['~'] + key;
    CutUnique(ID, '~', key);
  }

  lemma DevicesOfTwo(plain: Outbound, device: Outbound)
    requires !IsDeclared(plain.tag) && IsDeclared(device.tag) && CheckOutbound(device) == None
    ensures var t := ParseLocalDeviceTag(device.tag).value;
            DevicesFrom([plain, device], 0, map[]) == Ok(map[device.tag := Device(1, t.id, t.key)])
  {
    var outs := [plain, device];
    var devices := map[device.tag := DeviceAt(outs, 1)];
    assert DevicesFrom(outs, 2, devices) == Ok(devices);
    assert DevicesFrom(outs, 1, map[]) == DevicesFrom(outs, 2, devices);
  }

  lemma DenyOfTwo(deny: Outbound, device: Outbound)
    requires deny.protocol == "blackhole" && device.protocol == "socks"
    ensures DenyTags([deny, device]) == {deny.tag}
  {
    assert deny in [deny, device];
    assert "socks"[0] != "blackhole"[0];
  }

  lemma DevicesOfOne(key: string)
    requires 16 <= |key| <= 64 && |key| % 2 == 0 && forall i | 0 <= i < |key| :: IsHex(key[i])
    ensures var outs := [BLOCK] + [TheOutbound(key)];
            && DevicesFrom(outs, 0, map[]) == Ok(map[TagOf(key) := Device(1, ID, key)]) && DenyTags(outs) == {"block"}
  {
    TagParses(key);
    assert [BLOCK] + [TheOutbound(key)] == [BLOCK, TheOutbound(key)];
    DevicesOfTwo(BLOCK, TheOutbound(key));
    DenyOfTwo(BLOCK, TheOutbound(key));
  }

  function TheCtx(key: string): Ctx {
    Ctx("in", TheClient(), map[TagOf(key) := Device(1, ID, key)], {"block"}, true)
  }

  lemma RouteIsOwn(key: string, a: Addr, port: Option<string>, token: Option<string>)
    requires Declarable(key, a, port, token)
    ensures var ctx, rule := TheCtx(key), Route(key, a, port, token);
            && rule.Concerns(ctx.client.email, ctx.inbound) && OwnRoute(ctx, rule) && !IsSourceDeny(ctx, rule)
            && rule.Token() == token.GetOr("")
  {
    assert Route(key, a, port, token).Users() == [DeviceUser(ID)];
  }

  lemma RouteClaims(key: string, a: Addr, port: Option<string>, token: Option<string>)
    requires Declarable(key, a, port, token)
    ensures ClaimOf(Route(key, a, port, token)) == Ok((a, PortIn(port)))
  {
    var rule := Route(key, a, port, token);
    assert rule.Sources() == [Host(a, true)];
    assert port.Some? ==> rule.Ports() == [port.value];
  }

  lemma RouteSession(key: string, a: Addr, port: Option<string>, token: Option<string>, acc: Acc)
    requires Declarable(key, a, port, token) && acc.tokens == map[]
    ensures StepSession(TheCtx(key), Route(key, a, port, token), acc) ==
            Ok(acc.(tokens := if token.Some? then map[TagOf(key) := key] else map[]))
  {
    if token.Some? {
      TagParses(key);
    }
  }

  lemma FirstSource(ctx: Ctx, rule: Rule, s: Scan, a: Addr, port: int)
    requires OwnRoute(ctx, rule) && ctx.sourceMode && ctx.devices[rule.outboundTag].key != ""
             && ClaimOf(rule) == Ok((a, port))
    requires s.seen == map[] && s.acc.sources == map[] && s.acc.ports == map[]
    ensures StepSource(ctx, rule, s) ==
            Ok(s.(seen := map[a := {port}],
                  acc := s.acc.(sources := map[rule.outboundTag := a], ports := map[rule.outboundTag := port])))
  {
    assert PortsAt(map[], a) + {port} == {port};
  }

  lemma RouteStep(key: string, a: Addr, port: Option<string>, token: Option<string>, acc: Acc)
    requires Declarable(key, a, port, token) && acc == EMPTY_ACC.(identities := acc.identities)
    ensures StepRule(TheCtx(key), Route(key, a, port, token), FreshScan(acc)) ==
            Continue(Scan(acc.(sources := map[TagOf(key) := a], ports := map[TagOf(key) := PortIn(port)],
                               tokens := if token.Some? then map[TagOf(key) := key] else map[],
                               matched := {TagOf(key)}),
                          true, false, {TagOf(key)}, map[a := {PortIn(port)}]))
  {
    RouteIsOwn(key, a, port, token);
    RouteClaims(key, a, port, token);
    RouteSession(key, a, port, token, acc);
    OwnFirstStep(TheCtx(key), Route(key, a, port, token), acc,
                 if token.Some? then map[TagOf(key) := key] else map[], a, PortIn(port));
  }

  lemma OwnFirstStep(ctx: Ctx, rule: Rule, acc: Acc, tokens: map<string, string>, a: Addr, port: int)
    requires ctx.sourceMode && rule.Concerns(ctx.client.email, ctx.inbound) && !IsSourceDeny(ctx, rule)
    requires OwnRoute(ctx, rule) && ctx.devices[rule.outboundTag].key != "" && ClaimOf(rule) == Ok((a, port))
    requires acc == EMPTY_ACC.(identities := acc.identities)
    requires StepSession(ctx, rule, acc) == Ok(acc.(tokens := tokens))
    ensures StepRule(ctx, rule, FreshScan(acc)) ==
            Continue(Scan(acc.(sources := map[rule.outboundTag := a], ports := map[rule.outboundTag := port],
                               tokens := tokens, matched := {rule.outboundTag}),
                          true, false, {rule.outboundTag}, map[a := {port}]))
  {
    var acc1 := acc.(tokens := tokens);
    FirstSource(ctx, rule, FreshScan(acc).(acc := acc1), a, port);
    OwnStep(ctx, rule, FreshScan(acc), acc1);
  }

  lemma OwnStep(ctx: Ctx, rule: Rule, s: Scan, acc: Acc)
    requires ctx.sourceMode && rule.Concerns(ctx.client.email, ctx.inbound) && !IsSourceDeny(ctx, rule)
    requires OwnRoute(ctx, rule) && StepSession(ctx, rule, s.acc) == Ok(acc)
    requires StepSource(ctx, rule, s.(acc := acc)).Ok?
    ensures var r := StepSource(ctx, rule, s.(acc := acc)).value;
            StepRule(ctx, rule, s) ==
            Continue(r.(found := true, acc := r.acc.(matched := r.acc.matched + {rule.outboundTag}),
                        clientMatched := r.clientMatched + {rule.outboundTag}))
  {
  }

  lemma FallbackStep(key: string, s: Scan)
    ensures StepRule(TheCtx(key), FALLBACK, s) == Break(s.(denied := true))
  {
    assert FALLBACK.Inbounds() == ["in"];
  }

  lemma ScanOfOne(key: string, a: Addr, port: Option<string>, token: Option<string>, acc: Acc)
    requires Declarable(key, a, port, token) && acc == EMPTY_ACC.(identities := acc.identities)
    ensures ScanFrom(TheCtx(key), One(key, a, port, token).rules, 0, FreshScan(acc)) ==
            Ok(Scan(acc.(sources := map[TagOf(key) := a], ports := map[TagOf(key) := PortIn(port)],
                         tokens := if token.Some? then map[TagOf(key) := key] else map[], matched := {TagOf(key)}),
                    true, true, {TagOf(key)}, map[a := {PortIn(port)}]))
  {
    var rules := One(key, a, port, token).rules;
    assert rules == [Route(key, a, port, token), FALLBACK];
    RouteStep(key, a, port, token, acc);
    FallbackStep(key, StepRule(TheCtx(key), rules[0], FreshScan(acc)).scan);
  }

  lemma ClientOfOne(key: string, a: Addr, port: Option<string>, token: Option<string>, env: Env)
    requires Declarable(key, a, port, token)
    requires env == Env(One(key, a, port, token), map[TagOf(key) := Device(1, ID, key)], {"block"})
    ensures CheckClient(env, env.cfg.inbounds[0], TheClient(), EMPTY_ACC) ==
            Ok(EMPTY_ACC.(identities := {Identity("vless", "in", ID, DeviceUser(ID))}, sources := map[TagOf(key) := a],
                          ports := map[TagOf(key) := PortIn(port)],
                          tokens := if token.Some? then map[TagOf(key) := key] else map[],
                          matched := {TagOf(key)}, rates := map[ID := 0]))
  {
    var inbound, client := env.cfg.inbounds[0], TheClient();
    var acc := EMPTY_ACC.(identities := EMPTY_ACC.identities + {IdentityOf(inbound, client)});
    assert acc.identities == {Identity("vless", "in", ID, DeviceUser(ID))};
    assert env.devices[TagOf(key)].id == client.id;
    assert Manages(env.devices, client.id);
    assert IsSourceMode(env.devices, client.id);
    assert CtxFor(env, inbound, client) == TheCtx(key);
    assert ParseLimitTag("in") == None;
    ScanOfOne(key, a, port, token, acc);
  }

  /** The check accepts it and binds the tag to the address. */
  lemma OneParses(key: string, a: Addr, port: Option<string>, token: Option<string>)
    requires Declarable(key, a, port, token)
    ensures Parse(One(key, a, port, token)) == Ok(ParsedOne(key, a, port, token))
  {
    var cfg := One(key, a, port, token);
    DevicesOfOne(key);
    var devices := map[TagOf(key) := Device(1, ID, key)];
    var env := Env(cfg, devices, {"block"});
    ClientOfOne(key, a, port, token, env);
    var acc := CheckClient(env, cfg.inbounds[0], TheClient(), EMPTY_ACC).value;
    assert cfg.inbounds[0].clients == [TheClient()];
    assert ClientsFrom(env, cfg.inbounds[0], 0, EMPTY_ACC) == ClientsFrom(env, cfg.inbounds[0], 1, acc) == Ok(acc);
    assert InboundsFrom(env, 0, EMPTY_ACC) == InboundsFrom(env, 1, acc) == Ok(acc);
    assert forall tag | tag in devices :: tag in acc.matched;
  }
}
