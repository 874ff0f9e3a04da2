/** A live edit of the device topology leaves the process a restart would have given. */
module LiveEqualsRestart {
  import opened Base
  import opened DeviceConfig
  import opened DeviceCheck
  import opened XrayProcess
  import opened LiveTopology

  // ----- What a start loads, against the parsed topology -----

  lemma {:induction false} LoadedTracks(outs: seq<Outbound>)
    requires LiveOutbounds(outs).Some?
    ensures OutsTrack(LoadedOutbounds(outs), LiveOutbounds(outs).value)
  {
    if outs != [] {
      LoadedTracks(outs[..|outs| - 1]);
    }
  }

  /** For an expressible rule, loading differs from the live form at most in the tag. */
  lemma PlainIsLoaded(r: Rule, outs: map<string, Socks>)
    requires Expressible(r, outs)
    ensures PlainRule(LiveRuleOf(r)) == LoadRule(r)
    ensures WireRule(LiveRuleOf(r)) == LoadRule(r) <==> r.Token() == "" || r.ruleTag != ""
  {
    var l := LiveRuleOf(r);
    if r.Ports() != [] {
      var t := r.Ports()[0];
      assert Texts(l.ports) == [t];
      assert r.Ports() == [t];
    } else {
      assert Texts(l.ports) == [];
    }
    if r.ruleTag == "" && r.Token() != "" {
      assert WireTag(l)[0] == 's';
    }
  }

  /** What a start loads is the live form, but for the tags of session rules. */
  lemma LoadedRulesArePlain(rules: seq<Rule>, outs: map<string, Socks>)
    requires LiveRules(rules, outs).Some?
    ensures var l := LiveRules(rules, outs).value;
            |l| == |rules|
            && forall i | 0 <= i < |l| ::
              && LoadRule(rules[i]) == PlainRule(l[i])
              && (WireRule(l[i]) == LoadRule(rules[i]) <==> rules[i].Token() == "" || rules[i].ruleTag != "")
  {
    var l := LiveRules(rules, outs).value;
    forall i | 0 <= i < |l|
      ensures LoadRule(rules[i]) == PlainRule(l[i])
      ensures WireRule(l[i]) == LoadRule(rules[i]) <==> rules[i].Token() == "" || rules[i].ruleTag != ""
    {
      PlainIsLoaded(rules[i], outs);
    }
  }

  /** A freshly started process tracks the topology of its configuration. */
  lemma LoadTracks(runtime: Config)
    requires TopologyOf(runtime).Some?
    ensures Tracks(Load(runtime), TopologyOf(runtime).value)
  {
    var t := TopologyOf(runtime).value;
    LoadedTracks(runtime.outbounds);
    LoadedRulesArePlain(runtime.rules, t.outbounds);
  }

  /** A complete live edit of a process that tracks prev gives one that tracks next: the
      same device outbounds up to start-only extras, and the same rules in the same order
      up to the tags of session rules. */
  lemma SyncTracks(p0: Proc, prev: Config, next: Config, p1: Proc)
    requires Synced(p0, prev, next, p1) && Tracks(p0, TopologyOf(prev).value)
    requires Clean(TopologyOf(prev).value.rules) && Clean(TopologyOf(next).value.rules)
    ensures Tracks(p1, TopologyOf(next).value)
  {
    var before, after := TopologyOf(prev).value, TopologyOf(next).value;
    SameRulesIsEquality(before.rules, after.rules);
  }

  // ----- Exactly the restarted process -----

  /** The extra keys a live edit leaves an outbound of next with. */
  function ExtraAfter(run: map<string, RunOutbound>, t: string): string {
    if t in run then run[t].extra else ""
  }

  /** Every session rule has its rule tag. */
  predicate TagsSpelledOut(rules: seq<Rule>) {
    forall i | 0 <= i < |rules| :: rules[i].Token() == "" || rules[i].ruleTag != ""
  }

  /** Nothing keeps a process that runs prev from becoming, by a live edit, what a start on
      next gives: new device outbounds carry no key the gRPC call cannot send, kept ones run
      with theirs, and a rule list that stays runs as a start loads it, while one that changes
      spells out the tags of its session rules. */
  ghost predicate NoStartFrom(p0: Proc, prev: Config, next: Config)
    requires TopologyOf(prev).Some? && TopologyOf(next).Some?
  {
    var l1 := LoadedOutbounds(next.outbounds);
    && (forall t | t in l1 :: l1[t].extra == ExtraAfter(p0.outbounds, t))
    && if SameRules(TopologyOf(prev).value.rules, TopologyOf(next).value.rules) then p0.rules == LoadRules(next.rules)
       else TagsSpelledOut(next.rules)
  }

  /** The same for a process as a start on prev loads it, in terms of the change alone. */
  ghost predicate NeedsNoStart(prev: Config, next: Config)
    requires TopologyOf(prev).Some? && TopologyOf(next).Some?
  {
    var l0, l1 := LoadedOutbounds(prev.outbounds), LoadedOutbounds(next.outbounds);
    && (forall t | t in l1 :: l1[t].extra == ExtraAfter(l0, t))
    && (SameRules(TopologyOf(prev).value.rules, TopologyOf(next).value.rules) || TagsSpelledOut(next.rules))
  }

  lemma SyncedOutbounds(p0: Proc, prev: Config, next: Config, p1: Proc)
    requires Synced(p0, prev, next, p1) && OutsTrack(p0.outbounds, TopologyOf(prev).value.outbounds)
    ensures var l1 := LoadedOutbounds(next.outbounds);
            p1.outbounds == l1 <==> forall t | t in l1 :: l1[t].extra == ExtraAfter(p0.outbounds, t)
  {
    var l1 := LoadedOutbounds(next.outbounds);
    LoadedTracks(next.outbounds);
    assert p1.outbounds.Keys == l1.Keys;
    forall t | t in l1 ensures p1.outbounds[t] == l1[t].(extra := ExtraAfter(p0.outbounds, t)) {
      SyncedOutbound(p0, prev, next, p1, t);
    }
    SameButExtras(p1.outbounds, l1, p0.outbounds);
  }

  lemma SameButExtras(p: map<string, RunOutbound>, l1: map<string, RunOutbound>, run: map<string, RunOutbound>)
    requires p.Keys == l1.Keys && forall t | t in l1 :: p[t] == l1[t].(extra := ExtraAfter(run, t))
    ensures p == l1 <==> forall t | t in l1 :: l1[t].extra == ExtraAfter(run, t)
  {
  }

  lemma SyncedOutbound(p0: Proc, prev: Config, next: Config, p1: Proc, t: string)
    requires Synced(p0, prev, next, p1) && OutsTrack(p0.outbounds, TopologyOf(prev).value.outbounds)
    requires OutsTrack(LoadedOutbounds(next.outbounds), TopologyOf(next).value.outbounds)
    requires t in LoadedOutbounds(next.outbounds)
    ensures t in p1.outbounds
    ensures p1.outbounds[t] == LoadedOutbounds(next.outbounds)[t].(extra := ExtraAfter(p0.outbounds, t))
  {
    var before, after := TopologyOf(prev).value, TopologyOf(next).value;
    var l1 := LoadedOutbounds(next.outbounds);
    assert l1[t].(extra := "") == RunOf(after.outbounds[t], "");
    if t in p0.outbounds {
      assert p0.outbounds[t].(extra := "") == RunOf(before.outbounds[t], "");
    }
  }

  lemma SyncedRules(p0: Proc, prev: Config, next: Config, p1: Proc)
    requires Synced(p0, prev, next, p1)
    ensures p1.rules == LoadRules(next.rules) <==>
            if SameRules(TopologyOf(prev).value.rules, TopologyOf(next).value.rules)
            then p0.rules == LoadRules(next.rules)
            else TagsSpelledOut(next.rules)
  {
    var before, after := TopologyOf(prev).value, TopologyOf(next).value;
    LoadedRulesArePlain(next.rules, after.outbounds);
    if !SameRules(before.rules, after.rules) && p1.rules == LoadRules(next.rules) {
      forall i | 0 <= i < |next.rules| ensures next.rules[i].Token() == "" || next.rules[i].ruleTag != "" {
        assert p1.rules[i] == WireRule(after.rules[i]);
      }
    }
  }

  /** MAIN RESULT. A complete live edit of a process that runs prev, as loaded or after any
      edits before, gives exactly the device outbounds and the ordered rule list that a start
      on next would load, if and only if nothing needs a start. */
  lemma LiveIsRestart(p0: Proc, prev: Config, next: Config, p1: Proc)
    requires Synced(p0, prev, next, p1) && Tracks(p0, TopologyOf(prev).value)
    ensures p1.outbounds == Load(next).outbounds && p1.rules == Load(next).rules <==> NoStartFrom(p0, prev, next)
  {
    SyncedOutbounds(p0, prev, next, p1);
    SyncedRules(p0, prev, next, p1);
  }

  /** From a process as loaded that depends on the change alone. */
  lemma FromALoadedProcess(p0: Proc, prev: Config, next: Config)
    requires TopologyOf(prev).Some? && TopologyOf(next).Some?
    requires p0.outbounds == Load(prev).outbounds && p0.rules == Load(prev).rules
    requires Clean(TopologyOf(prev).value.rules) && Clean(TopologyOf(next).value.rules)
    ensures NoStartFrom(p0, prev, next) <==> NeedsNoStart(prev, next)
  {
    var before, after := TopologyOf(prev).value, TopologyOf(next).value;
    SameRulesIsEquality(before.rules, after.rules);
    LoadedRulesArePlain(prev.rules, before.outbounds);
    LoadedRulesArePlain(next.rules, after.outbounds);
    if before.rules == after.rules {
      assert LoadRules(prev.rules) == LoadRules(next.rules);
    }
  }

  // ----- Which lists can be swapped in live -----

  /** The client's own check refuses a source port on an IPv4 host, and a session token that
      is not in lower case. */
  predicate Sendable(r: Rule) {
    && !(r.Ports() != [] && exists c | c in r.Sources() :: c.Host? && !c.addr.v6)
    && (r.Token() != "" ==> IsSessionToken(r.Token()))
  }

  /** What it accepts of the rules the agent can express. */
  lemma SendsExactly(r: Rule, outs: map<string, Socks>)
    requires Expressible(r, outs)
    ensures Sends(LiveRuleOf(r)) <==> Sendable(r)
  {
    var l := LiveRuleOf(r);
    assert l.ports != [] <==> r.Ports() != [];
    forall c | c in r.Sources() ensures SendsSource(c, l.ports != []) <==> !(r.Ports() != [] && c.Host? && !c.addr.v6) {
      assert LiveSource(c, r.Ports() != []);
    }
  }

  /** A live edit can be completed exactly when both topologies can be edited, no kept
      outbound changes, and the list stays or every rule of the new one can be sent. */
  lemma EditCanComplete(p0: Proc, prev: Config, next: Config)
    ensures (exists p1 :: Synced(p0, prev, next, p1)) <==>
            && TopologyOf(prev).Some? && TopologyOf(next).Some?
            && var before, after := TopologyOf(prev).value, TopologyOf(next).value;
            && (forall t | t in before.outbounds && t in after.outbounds :: before.outbounds[t] == after.outbounds[t])
            && (SameRules(before.rules, after.rules) || forall r | r in next.rules :: Sendable(r))
  {
    if TopologyOf(prev).Some? && TopologyOf(next).Some? {
      var before, after := TopologyOf(prev).value, TopologyOf(next).value;
      ListIsSendable(next.rules, after);
      var p1 := Edited(p0, before, after);
      assert Synced(p0, prev, next, p1) <==>
             && (forall t | t in before.outbounds && t in after.outbounds :: before.outbounds[t] == after.outbounds[t])
             && (SameRules(before.rules, after.rules) || forall l | l in after.rules :: Sends(l));
    }
  }

  function Edited(p0: Proc, before: LiveTopo, after: LiveTopo): Proc {
    p0.(outbounds := Added(p0.outbounds, before.outbounds, after.outbounds, after.outbounds.Keys)
                     - (before.outbounds.Keys - after.outbounds.Keys),
        rules := if SameRules(before.rules, after.rules) then p0.rules else WireRules(after.rules))
  }

  lemma ListIsSendable(rules: seq<Rule>, t: LiveTopo)
    requires LiveRules(rules, t.outbounds) == Some(t.rules)
    ensures (forall l | l in t.rules :: Sends(l)) <==> forall r | r in rules :: Sendable(r)
  {
    forall i | 0 <= i < |rules| ensures Sends(t.rules[i]) <==> Sendable(rules[i]) {
      SendsExactly(rules[i], t.outbounds);
    }
    if forall l | l in t.rules :: Sends(l) {
      forall r | r in rules ensures Sendable(r) {
        var i :| 0 <= i < |rules| && rules[i] == r;
        assert t.rules[i] in t.rules;
      }
    }
    if forall r | r in rules :: Sendable(r) {
      forall l | l in t.rules ensures Sends(l) {
        var i :| 0 <= i < |t.rules| && t.rules[i] == l;
        assert rules[i] in rules;
      }
    }
  }

  /** So a rule list with a source port on an IPv4 host is never swapped in live, and a
      generation that changes such a list needs a restart. */
  lemma Ipv4PortRulesNeedARestart(p0: Proc, prev: Config, next: Config, p1: Proc, r: Rule, c: Cidr)
    requires Synced(p0, prev, next, p1) && r in next.rules && r.Ports() != []
    requires c in r.Sources() && c.Host? && !c.addr.v6
    ensures SameRules(TopologyOf(prev).value.rules, TopologyOf(next).value.rules)
  {
    EditCanComplete(p0, prev, next);
    assert !Sendable(r);
  }
}
