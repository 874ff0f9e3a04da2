/** What two configurations share when sameLocalStructure says so, written out from the
    configurations (node-agent/cmd/device_egress.go, pkg/devicebandwidth/topology.go). */
module StructureKept {
  import opened Base
  import opened Text
  import opened DeviceConfig
  import opened DeviceCheck
  import opened Topology
  import opened XrayProcess

  // ----- Filters from both ends -----

  lemma {:induction false} OthersOfConcat(a: seq<Outbound>, b: seq<Outbound>)
    ensures OtherOutbounds(a + b) == OtherOutbounds(a) + OtherOutbounds(b)
  {
    if a == [] {
      assert a + b == b;
    } else {
      var first := if IsDeviceOutboundTag(a[0].tag) then [] else [a[0]];
      assert (a + b)[0] == a[0] && (a + b)[1..] == a[1..] + b;
      OthersOfConcat(a[1..], b);
      assert OtherOutbounds(a + b) == first + (OtherOutbounds(a[1..]) + OtherOutbounds(b));
    }
  }

  lemma {:induction false} StructuralAreOthers(outs: seq<Outbound>)
    ensures StructuralOutbounds(outs) == OtherOutbounds(outs)
  {
    if outs != [] {
      var front, last := outs[..|outs| - 1], outs[|outs| - 1];
      StructuralAreOthers(front);
      assert front + [last] == outs && [last][1..] == [];
      OthersOfConcat(front, [last]);
    }
  }

  /** The rules in order, without the device rules. */
  ghost function OtherRules(rules: seq<Rule>): seq<Rule> {
    if rules == [] then [] else (if IsDeviceRule(rules[0]) then [] else [rules[0]]) + OtherRules(rules[1..])
  }

  lemma OneRule(r: Rule)
    ensures StructuralRules([r]) == if IsDeviceRule(r) then [] else [r]
  {
    assert [r][..0] == [];
  }

  lemma {:induction false} StructuralRulesAreOthers(rules: seq<Rule>)
    ensures StructuralRules(rules) == OtherRules(rules)
  {
    if rules != [] {
      StructuralRulesAreOthers(rules[1..]);
      assert [rules[0]] + rules[1..] == rules;
      StructuralRulesConcat([rules[0]], rules[1..]);
      OneRule(rules[0]);
    }
  }

  // ----- sameLocalStructure -----

  /** Tag, protocol and other keys agree, and so do the clients of every protocol but VLESS. */
  predicate SameInbound(a: Inbound, b: Inbound) {
    a.tag == b.tag && a.protocol == b.protocol && a.extra == b.extra
        && (a.protocol != "vless" ==> a.clients == b.clients)
  }

  lemma InboundsAgree(a: Config, b: Config)
    ensures LocalStructure(a).inbounds == LocalStructure(b).inbounds <==>
            |a.inbounds| == |b.inbounds| && forall k | 0 <= k < |a.inbounds| ::
                SameInbound(a.inbounds[k], b.inbounds[k])
  {
    var x, y := LocalStructure(a).inbounds, LocalStructure(b).inbounds;
    assert |x| == |a.inbounds| && |y| == |b.inbounds|;
    if |a.inbounds| == |b.inbounds| {
      forall k | 0 <= k < |a.inbounds| ensures x[k] == y[k] <==> SameInbound(a.inbounds[k], b.inbounds[k]) {
        assert x[k] == WithoutClients(a.inbounds[k]) && y[k] == WithoutClients(b.inbounds[k]);
      }
      if forall k | 0 <= k < |a.inbounds| :: SameInbound(a.inbounds[k], b.inbounds[k]) {
        assert x == y;
      }
    }
  }

  /** MAIN RESULT. Two configurations have the same local structure if and only if they agree on
      everything but the rates, the device outbounds, the device rules and the VLESS clients:
      in particular on every client of another protocol. */
  lemma SameStructureExactly(a: Config, b: Config)
    ensures SameLocalStructure(a, b) <==>
            && |a.inbounds| == |b.inbounds|
            && (forall k | 0 <= k < |a.inbounds| :: SameInbound(a.inbounds[k], b.inbounds[k]))
            && OtherOutbounds(a.outbounds) == OtherOutbounds(b.outbounds)
            && OtherRules(a.rules) == OtherRules(b.rules)
            && a.balancers == b.balancers && a.extra == b.extra
  {
    InboundsAgree(a, b);
    StructuralAreOthers(a.outbounds);
    StructuralAreOthers(b.outbounds);
    StructuralRulesAreOthers(a.rules);
    StructuralRulesAreOthers(b.rules);
  }

  /** So a start loads the same structure from both. */
  lemma SameStructureLoads(a: Config, b: Config)
    requires SameLocalStructure(a, b)
    ensures StructureOf(a) == StructureOf(b)
  {
    SameStructureExactly(a, b);
    assert LoadedInbounds(a.inbounds) == LoadedInbounds(b.inbounds);
  }

  // ----- Device rules -----

  /** An unconditional deny for one user, tagged with that user's id. */
  ghost predicate DeniesDevice(rule: Rule, id: string) {
    && id != ""
    && rule == Rule(rule.kind, Some([id + "@proxima"]), None, "block", "client-address-deny-" + id, None, None, None,
                    "")
  }

  /** An unconditional route of one user to the outbound named after it. */
  ghost predicate RoutesDevice(rule: Rule, id: string) {
    && id != "" && '~' !in id
    && rule == Rule(rule.kind, Some([id + "@proxima"]), None, "device-egress-" + id, rule.ruleTag, None, None, None, "")
  }

  /** A route of one user from one host, perhaps from one port of it, perhaps for a session. */
  ghost predicate RoutesSource(rule: Rule, id: string, key: string) {
    && '~' !in id && IsHexKey(key)
    && rule == Rule(rule.kind, Some([id + "@proxima"]), None, "device-egress-" + id + "~" + key, rule.ruleTag,
                    rule.source,
                    rule.sourcePort, rule.sessionToken, "")
    && rule.source.Some? && |rule.source.value| == 1 && IsExactHost(rule.source.value[0])
    && (rule.sourcePort.Some? ==> |rule.sourcePort.value| == 1 && ExactPort(rule.sourcePort.value[0]).Some?)
    && (rule.sessionToken.Some? ==> rule.sourcePort.Some? && IsSessionToken(rule.sessionToken.value))
  }

  lemma DeniesExactly(rule: Rule)
    ensures IsDeviceDeny(rule) <==> exists id :: DeniesDevice(rule, id)
  {
    if IsDeviceDeny(rule) {
      var id := rule.ruleTag[|DENY_PREFIX|..];
      assert rule.ruleTag == DENY_PREFIX + id;
      assert DeniesDevice(rule, id);
    }
    if id :| DeniesDevice(rule, id) {
      assert rule.ruleTag[|DENY_PREFIX|..] == id;
    }
  }

  lemma RouteTagParts(tag: string)
    requires OUTBOUND_PREFIX <= tag
    ensures var c := Cut(tag[|OUTBOUND_PREFIX|..], '~');
            tag == OUTBOUND_PREFIX + (if c.found then c.before + "~" + c.after else c.before) && '~' !in c.before
  {
    assert tag == OUTBOUND_PREFIX + tag[|OUTBOUND_PREFIX|..];
  }

  lemma PlainTag(id: string)
    requires '~' !in id
    ensures Cut((OUTBOUND_PREFIX + id)[|OUTBOUND_PREFIX|..], '~') == CutResult(id, "", false)
  {
    assert (OUTBOUND_PREFIX + id)[|OUTBOUND_PREFIX|..] == id;
    CutAbsent(id, '~');
  }

  lemma SourceTag(id: string, key: string)
    requires '~' !in id
    ensures Cut((OUTBOUND_PREFIX + id + "~" + key)[|OUTBOUND_PREFIX|..], '~') == CutResult(id, key, true)
  {
    assert (OUTBOUND_PREFIX + id + "~" + key)[|OUTBOUND_PREFIX|..] == id + ['~'] + key;
    CutUnique(id, '~', key);
  }

  lemma RoutesExactly(rule: Rule)
    requires IsDeviceOutboundTag(rule.outboundTag)
    ensures IsDeviceRoute(rule) <==>
            (exists id :: RoutesDevice(rule, id)) || exists id, key :: RoutesSource(rule, id, key)
  {
    var c := Cut(rule.outboundTag[|OUTBOUND_PREFIX|..], '~');
    RouteTagParts(rule.outboundTag);
    if IsDeviceRoute(rule) {
      if c.found {
        assert rule.outboundTag == OUTBOUND_PREFIX + c.before + "~" + c.after;
        assert RoutesSource(rule, c.before, c.after);
      } else {
        assert RoutesDevice(rule, c.before);
      }
    }
    if id :| RoutesDevice(rule, id) {
      PlainTag(id);
    }
    if id, key :| RoutesSource(rule, id, key) {
      SourceTag(id, key);
    }
  }

  /** MAIN RESULT. The rules that may come and go without a restart are exactly the deny and the
      unconditional route of one device, and its routes from one exact host. */
  lemma DeviceRuleExactly(rule: Rule)
    ensures IsDeviceRule(rule) <==>
            || (exists id :: DeniesDevice(rule, id))
            || (exists id :: RoutesDevice(rule, id))
            || (exists id, key :: RoutesSource(rule, id, key))
  {
    if IsDeviceOutboundTag(rule.outboundTag) {
      RoutesExactly(rule);
      assert rule.outboundTag[0] != "block"[0];
    } else {
      DeniesExactly(rule);
      if id :| RoutesDevice(rule, id) {
        assert false;
      }
      if id, key :| RoutesSource(rule, id, key) {
        assert false;
      }
    }
  }
}
