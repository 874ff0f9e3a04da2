/** What of a configuration is live-managed device topology and what is structure
    (pkg/devicebandwidth and sameLocalStructure). */
module Topology {
  import opened Base
  import opened Text
  import opened DeviceConfig
  import opened DeviceCheck

  const DENY_PREFIX: string := "client-address-deny-"

  predicate IsDeviceOutboundTag(tag: string) {
    IsDeclared(tag) && |tag| > |OUTBOUND_PREFIX|
  }

  /** A per-credential deny whose tag and user agree, and which says nothing else. */
  predicate IsDeviceDeny(rule: Rule) {
    && rule.outboundTag == "block"
    && DENY_PREFIX <= rule.ruleTag
    && |rule.ruleTag| > |DENY_PREFIX|
    && rule.user == Some([DeviceUser(rule.ruleTag[|DENY_PREFIX|..])])
    && rule.inboundTag == None && rule.source == None && rule.sourcePort == None
    && rule.sessionToken == None && rule.extra == ""
  }

  predicate IsExactHost(c: Cidr) {
    c.Host? && !c.addr.IsUnspecified() && !c.addr.IsMulticast()
  }

  predicate IsExactPortList(ports: seq<string>) {
    |ports| == 1 && ExactPort(ports[0]).Some?
  }

  predicate IsHexKey(key: string) {
    16 <= |key| <= 64 && |key| % 2 == 0 && forall i | 0 <= i < |key| :: IsHex(key[i])
  }

  predicate IsDeviceRoute(rule: Rule)
    requires IsDeviceOutboundTag(rule.outboundTag)
  {
    var c := Cut(rule.outboundTag[|OUTBOUND_PREFIX|..], '~');
    && rule.user == Some([DeviceUser(c.before)])
    && (c.found ==> IsHexKey(c.after))
    && (c.found ==> |rule.Sources()| == 1 && IsExactHost(rule.Sources()[0]))
    && (c.found && rule.sourcePort.Some? ==> IsExactPortList(rule.sourcePort.value))
    && rule.inboundTag == None && rule.extra == ""
    && (!c.found ==> rule.source == None && rule.sourcePort == None && rule.sessionToken == None)
    && (rule.sessionToken.Some? ==> IsSessionToken(rule.Token()) && |rule.Ports()| == 1)
  }

  predicate IsDeviceRule(rule: Rule) {
    if IsDeviceOutboundTag(rule.outboundTag) then IsDeviceRoute(rule) else IsDeviceDeny(rule)
  }

  function StructuralOutbounds(outs: seq<Outbound>): seq<Outbound> {
    if outs == [] then []
    else
      var rest := StructuralOutbounds(outs[..|outs| - 1]);
      var o := outs[|outs| - 1];
      if IsDeviceOutboundTag(o.tag) then rest else rest + [o]
  }

  function StructuralRules(rules: seq<Rule>): seq<Rule> {
    if rules == [] then []
    else
      var rest := StructuralRules(rules[..|rules| - 1]);
      var r := rules[|rules| - 1];
      if IsDeviceRule(r) then rest else rest + [r]
  }

  /** The configuration without rates, device outbounds and device rules. */
  function Strip(cfg: Config): Config {
    cfg.(rates := NoRates, outbounds := StructuralOutbounds(cfg.outbounds), rules := StructuralRules(cfg.rules))
  }

  method StripDeviceTopology(cfg: Config) returns (r: Config)
    ensures r == Strip(cfg)
  {
    var outs: seq<Outbound> := [];
    for i := 0 to |cfg.outbounds|
      invariant outs == StructuralOutbounds(cfg.outbounds[..i])
    {
      assert cfg.outbounds[..i + 1][..i] == cfg.outbounds[..i];
      if !IsDeviceOutboundTag(cfg.outbounds[i].tag) {
        outs := outs + [cfg.outbounds[i]];
      }
    }
    var rules: seq<Rule> := [];
    for i := 0 to |cfg.rules|
      invariant rules == StructuralRules(cfg.rules[..i])
    {
      assert cfg.rules[..i + 1][..i] == cfg.rules[..i];
      if !IsDeviceRule(cfg.rules[i]) {
        rules := rules + [cfg.rules[i]];
      }
    }
    assert cfg.outbounds[..|cfg.outbounds|] == cfg.outbounds && cfg.rules[..|cfg.rules|] == cfg.rules;
    return cfg.(rates := NoRates, outbounds := outs, rules := rules);
  }

  /** VLESS clients are applied live too. */
  function WithoutClients(inbound: Inbound): Inbound {
    if inbound.protocol == "vless" then inbound.(clients := []) else inbound
  }

  function LocalStructure(cfg: Config): Config {
    Strip(cfg).(inbounds := seq(|cfg.inbounds|, k requires 0 <= k < |cfg.inbounds| => WithoutClients(cfg.inbounds[k])))
  }

  predicate SameLocalStructure(a: Config, b: Config) { LocalStructure(a) == LocalStructure(b) }

  // ----- What is stripped is device topology, and nothing else -----

  /** Stripping is a filter: the structural rules of a concatenation are those of its
      parts, in order; so adding or removing device rules anywhere is not a change of
      structure, and any other rule is. */
  lemma {:induction false} StructuralRulesConcat(a: seq<Rule>, b: seq<Rule>)
    ensures StructuralRules(a + b) == StructuralRules(a) + StructuralRules(b)
  {
    if b == [] {
      assert a + b == a;
    } else {
      assert (a + b)[..|a + b| - 1] == a + b[..|b| - 1];
      StructuralRulesConcat(a, b[..|b| - 1]);
    }
  }

  /** Inserting one rule anywhere keeps the structure exactly when it is a device rule. */
  lemma InsertedRuleIsStructural(a: seq<Rule>, r: Rule, b: seq<Rule>)
    ensures StructuralRules(a + [r] + b) == StructuralRules(a + b) <==> IsDeviceRule(r)
  {
    StructuralRulesConcat(a + [r], b);
    StructuralRulesConcat(a, [r]);
    StructuralRulesConcat(a, b);
    assert [r][..0] == [];
    var x, y := StructuralRules(a), StructuralRules(b);
    if !IsDeviceRule(r) {
      assert StructuralRules([r]) == [r];
      assert |x + [r] + y| == |x + y| + 1;
    } else {
      assert x + [] == x;
    }
  }

  /** A rule that device topology may add or drop without a restart only ever concerns
      one user, on every inbound, and leads to an outbound named after that user's own
      device or to the deny outbound. */
  lemma DeviceRuleTouchesOneUser(rule: Rule)
    requires IsDeviceRule(rule)
    ensures |rule.Users()| == 1 && rule.Inbounds() == [] && rule.extra == ""
    ensures rule.outboundTag == "block"
            || (IsDeclared(rule.outboundTag)
                && rule.Users()[0] == DeviceUser(Cut(rule.outboundTag[|OUTBOUND_PREFIX|..], '~').before))
  {
  }
}
