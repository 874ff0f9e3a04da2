/** Moving a running Xray from one generation's device topology to the next's
    (node-agent/cmd/live_topology.go). */
module LiveTopology {
  import opened Base
  import opened Sets
  import opened Text
  import opened TextFields
  import opened DeviceConfig
  import opened Topology
  import opened XrayProcess

  datatype LiveTopo = LiveTopo(outbounds: map<string, Socks>, rules: seq<LiveRule>)

  // ----- parseLiveTopology -----

  predicate Materialized(s: Socks) { s.pass != "" && s.pass != PLACEHOLDER }

  function LiveOutbounds(outs: seq<Outbound>): Option<map<string, Socks>> {
    if outs == [] then Some(map[])
    else
      var o := outs[|outs| - 1];
      match LiveOutbounds(outs[..|outs| - 1])
      case None => None
      case Some(rest) =>
        if !IsDeviceOutboundTag(o.tag) then Some(rest)
        else match SingleSocks(o)
             case Some(s) => if Materialized(s) then Some(rest[o.tag := s]) else None
             case None => None
  }

  predicate LiveSource(c: Cidr, withPort: bool) {
    match c
    case Host(a, canonical) => canonical && !a.Is4In6() && (withPort ==> !a.IsUnspecified() && !a.IsMulticast())
    case Network(_) => !withPort
    case Malformed(_) => false
  }

  predicate SessionBound(r: Rule, outs: map<string, Socks>) {
    var token := r.Token();
    && |token| == 64
    && ParseLocalDeviceTag(r.outboundTag).Some?
    && var t := ParseLocalDeviceTag(r.outboundTag).value;
    && t.key == token && r.outboundTag in outs
    && var o := outs[r.outboundTag];
    && o.address == LISTEN_IP && o.port == SOCKS_PORT && o.user == t.id
    && r.Users() == [DeviceUser(t.id)] && |r.Ports()| == 1 && |r.Sources()| == 1
    && (r.ruleTag == "" || r.ruleTag == "session-" + token)
  }

  /** The rules the agent can express over gRPC. */
  predicate Expressible(r: Rule, outs: map<string, Socks>) {
    && r.extra == "" && (r.kind == "" || r.kind == "field") && r.outboundTag != ""
    && (forall c | c in r.Sources() :: LiveSource(c, r.Ports() != []))
    && (r.Ports() != [] ==> |r.Ports()| == 1 && ExactPort(r.Ports()[0]).Some? && |r.Sources()| == 1)
    && (r.Token() != "" ==> SessionBound(r, outs))
  }

  function LiveRuleOf(r: Rule): LiveRule {
    LiveRule(r.ruleTag, r.outboundTag, r.Users(), r.Inbounds(), r.Sources(),
             if |r.Ports()| == 1 && ExactPort(r.Ports()[0]).Some? then [ExactPort(r.Ports()[0]).value] else [],
             r.Token())
  }

  function LiveForms(rules: seq<Rule>): (r: seq<LiveRule>)
    ensures |r| == |rules| && forall i | 0 <= i < |r| :: r[i] == LiveRuleOf(rules[i])
  {
    seq(|rules|, i requires 0 <= i < |rules| => LiveRuleOf(rules[i]))
  }

  function LiveRules(rules: seq<Rule>, outs: map<string, Socks>): Option<seq<LiveRule>> {
    if forall i | 0 <= i < |rules| :: Expressible(rules[i], outs) then Some(LiveForms(rules)) else None
  }

  function TopologyOf(runtime: Config): Option<LiveTopo> {
    if runtime.balancers > 0 then None
    else match LiveOutbounds(runtime.outbounds)
         case None => None
         case Some(outs) =>
           match LiveRules(runtime.rules, outs)
           case None => None
           case Some(rules) => Some(LiveTopo(outs, rules))
  }

  /** An outbound the agent can run live: one server with one user, with its local password. */
  ghost predicate IsLiveOutbound(o: Outbound) {
    && o.protocol == "socks" && |o.servers| == 1 && |o.servers[0].users| == 1
    && o.servers[0].users[0].pass != "" && o.servers[0].users[0].pass != "materialize-at-node"
  }

  lemma {:induction false} OutboundsExactly(outs: seq<Outbound>)
    ensures LiveOutbounds(outs).Some? <==> forall o | o in outs && IsDeviceOutboundTag(o.tag) :: IsLiveOutbound(o)
    ensures LiveOutbounds(outs).Some? ==>
              forall t :: t in LiveOutbounds(outs).value <==>
                  IsDeviceOutboundTag(t) && exists o :: o in outs && o.tag == t
  {
    if outs != [] {
      var front, last := outs[..|outs| - 1], outs[|outs| - 1];
      OutboundsExactly(front);
      assert front + [last] == outs;
      assert forall o :: o in outs <==> o in front || o == last;
      if LiveOutbounds(outs).Some? {
        forall t
          ensures t in LiveOutbounds(outs).value <==> IsDeviceOutboundTag(t) && exists o :: o in outs && o.tag == t
        {
          if t == last.tag {
            assert last in outs;
          }
        }
      }
    }
  }

  /** A source the agent can send: a host in canonical spelling, no mapped address, and with a
      port none but unicast; or, without a port, a network in canonical spelling. */
  ghost predicate IsLiveSource(c: Cidr, port: bool) {
    || (c.Network? && !port)
    || (c.Host? && c.canonical && !c.addr.Is4In6() && (port ==> !c.addr.IsUnspecified() && !c.addr.IsMulticast()))
  }

  /** A rule the agent can send: known keys only, an outbound, such sources, at most one port
      and that of one source; and for a session all that binds it to its tag. */
  ghost predicate IsLiveRule(r: Rule, outs: map<string, Socks>) {
    && r == Rule(r.kind, r.user, r.inboundTag, r.outboundTag, r.ruleTag, r.source, r.sourcePort, r.sessionToken, "")
    && (r.kind == "" || r.kind == "field") && r.outboundTag != ""
    && (forall c | c in r.Sources() :: IsLiveSource(c, r.Ports() != []))
    && (r.Ports() == [] || (|r.Ports()| == 1 && |r.Sources()| == 1 && ExactPort(r.Ports()[0]).Some?))
    && (r.Token() == "" || exists id :: IsLiveSession(r, id, outs))
  }

  ghost predicate IsLiveSession(r: Rule, id: string, outs: map<string, Socks>) {
    && |r.Token()| == 64 && ParseLocalDeviceTag(r.outboundTag) == Some(DeviceTag(id, r.Token()))
    && r.outboundTag in outs
    && outs[r.outboundTag].address == "127.0.0.1" && outs[r.outboundTag].port == 10086 && outs[r.outboundTag].user == id
    && r.user == Some([id + "@proxima"]) && |r.Ports()| == 1 && |r.Sources()| == 1
    && (r.ruleTag == "" || r.ruleTag == "session-" + r.Token())
  }

  lemma RuleExactly(r: Rule, outs: map<string, Socks>)
    ensures Expressible(r, outs) <==> IsLiveRule(r, outs)
  {
    if r.Token() != "" && ParseLocalDeviceTag(r.outboundTag).Some? {
      var id := ParseLocalDeviceTag(r.outboundTag).value.id;
      assert SessionBound(r, outs) <==> IsLiveSession(r, id, outs);
    }
  }

  /** MAIN RESULT. A configuration can be edited live if and only if it has no balancer, every
      device outbound has its one login, and every rule can be sent. */
  lemma TopologyExactly(runtime: Config)
    ensures TopologyOf(runtime).Some? <==>
            && runtime.balancers == 0
            && (forall o | o in runtime.outbounds && IsDeviceOutboundTag(o.tag) :: IsLiveOutbound(o))
            && LiveOutbounds(runtime.outbounds).Some?
            && forall r | r in runtime.rules :: IsLiveRule(r, LiveOutbounds(runtime.outbounds).value)
  {
    OutboundsExactly(runtime.outbounds);
    if LiveOutbounds(runtime.outbounds).Some? {
      var outs, rules := LiveOutbounds(runtime.outbounds).value, runtime.rules;
      forall i | 0 <= i < |rules| ensures Expressible(rules[i], outs) <==> IsLiveRule(rules[i], outs) {
        RuleExactly(rules[i], outs);
      }
      if forall i | 0 <= i < |rules| :: Expressible(rules[i], outs) {
        forall r | r in rules ensures IsLiveRule(r, outs) {
          var i :| 0 <= i < |rules| && rules[i] == r;
        }
      }
      if forall r | r in rules :: IsLiveRule(r, outs) {
        forall i | 0 <= i < |rules| ensures Expressible(rules[i], outs) {
          assert rules[i] in rules;
        }
      }
    }
  }

  method ParseOutbounds(all: seq<Outbound>) returns (r: Option<map<string, Socks>>)
    ensures r == LiveOutbounds(all)
  {
    var outs: map<string, Socks> := map[];
    for i := 0 to |all|
      invariant LiveOutbounds(all[..i]) == Some(outs)
    {
      assert all[..i + 1][..i] == all[..i];
      var o := all[i];
      if IsDeviceOutboundTag(o.tag) {
        var s := SingleSocks(o);
        if s == None || !Materialized(s.value) {
          NoMoreOutbounds(all, i + 1);
          return None;
        }
        outs := outs[o.tag := s.value];
      }
    }
    assert all[..|all|] == all;
    return Some(outs);
  }

  method ParseRules(all: seq<Rule>, outs: map<string, Socks>) returns (r: Option<seq<LiveRule>>)
    ensures r == LiveRules(all, outs)
  {
    var rules: seq<LiveRule> := [];
    for i := 0 to |all|
      invariant |rules| == i && forall j | 0 <= j < i :: Expressible(all[j], outs) && rules[j] == LiveRuleOf(all[j])
    {
      if !Expressible(all[i], outs) {
        return None;
      }
      rules := rules + [LiveRuleOf(all[i])];
    }
    assert rules == LiveForms(all);
    return Some(rules);
  }

  method ParseLiveTopology(runtime: Config) returns (r: Option<LiveTopo>)
    ensures r == TopologyOf(runtime)
  {
    if runtime.balancers > 0 {
      return None;
    }
    var outs := ParseOutbounds(runtime.outbounds);
    if outs == None {
      return None;
    }
    var rules := ParseRules(runtime.rules, outs.value);
    return if rules == None then None else Some(LiveTopo(outs.value, rules.value));
  }

  lemma {:induction false} NoMoreOutbounds(outs: seq<Outbound>, i: nat)
    requires i <= |outs| && LiveOutbounds(outs[..i]) == None
    ensures LiveOutbounds(outs) == None
    decreases |outs|
  {
    if i < |outs| {
      assert outs[..|outs| - 1][..i] == outs[..i];
      NoMoreOutbounds(outs[..|outs| - 1], i);
    } else {
      assert outs[..i] == outs;
    }
  }

  // ----- sameRules -----

  predicate SameRule(a: LiveRule, b: LiveRule) {
    && a.ruleTag == b.ruleTag && a.outboundTag == b.outboundTag
    && Join(a.user, '\0') == Join(b.user, '\0') && Join(a.inboundTag, '\0') == Join(b.inboundTag, '\0')
    && a.source == b.source && a.ports == b.ports && a.token == b.token
  }

  predicate SameRules(a: seq<LiveRule>, b: seq<LiveRule>) {
    |a| == |b| && forall i | 0 <= i < |a| :: SameRule(a[i], b[i])
  }

  /** No name in a list holds the joining byte. */
  predicate NulFree(parts: seq<string>) {
    forall i | 0 <= i < |parts| :: '\0' !in parts[i]
  }

  /** No name is empty either. */
  predicate CleanList(parts: seq<string>) {
    NulFree(parts) && forall i | 0 <= i < |parts| :: parts[i] != ""
  }

  predicate Clean(rules: seq<LiveRule>) {
    forall i | 0 <= i < |rules| :: CleanList(rules[i].user) && CleanList(rules[i].inboundTag)
  }

  /** The same list, or none against the empty name. */
  predicate SameNames(a: seq<string>, b: seq<string>) {
    a == b || (a == [] && b == [""]) || (a == [""] && b == [])
  }

  /** The joined text tells NUL-free lists apart, but for the empty list and the empty name. */
  lemma JoinExactly(a: seq<string>, b: seq<string>)
    requires NulFree(a) && NulFree(b)
    ensures Join(a, '\0') == Join(b, '\0') <==> SameNames(a, b)
  {
    SplitJoin([""], '\0');
    if a != [] {
      SplitJoin(a, '\0');
    }
    if b != [] {
      SplitJoin(b, '\0');
    }
  }

  /** So it tells apart any lists without an empty name. */
  lemma JoinIsInjective(a: seq<string>, b: seq<string>)
    requires CleanList(a) && CleanList(b)
    ensures Join(a, '\0') == Join(b, '\0') <==> a == b
  {
    JoinExactly(a, b);
    if a == [""] || b == [""] {
      assert false;
    }
  }

  /** Equal, or different only in an empty list against the empty name. */
  predicate AlmostSameRule(a: LiveRule, b: LiveRule) {
    && b == a.(user := b.user, inboundTag := b.inboundTag)
    && SameNames(a.user, b.user) && SameNames(a.inboundTag, b.inboundTag)
  }

  ghost predicate NulFreeRules(rules: seq<LiveRule>) {
    forall i | 0 <= i < |rules| :: NulFree(rules[i].user) && NulFree(rules[i].inboundTag)
  }

  /** What sameRules decides on names without NUL. */
  lemma SameRulesExactly(a: seq<LiveRule>, b: seq<LiveRule>)
    requires NulFreeRules(a) && NulFreeRules(b)
    ensures SameRules(a, b) <==> |a| == |b| && forall i | 0 <= i < |a| :: AlmostSameRule(a[i], b[i])
  {
    if |a| == |b| {
      forall i | 0 <= i < |a| ensures SameRule(a[i], b[i]) <==> AlmostSameRule(a[i], b[i]) {
        JoinExactly(a[i].user, b[i].user);
        JoinExactly(a[i].inboundTag, b[i].inboundTag);
      }
    }
  }

  /** On names that are not empty and hold no NUL, it is equality. */
  lemma SameRulesIsEquality(a: seq<LiveRule>, b: seq<LiveRule>)
    requires Clean(a) && Clean(b)
    ensures SameRules(a, b) <==> a == b
  {
    if SameRules(a, b) {
      forall i | 0 <= i < |a| ensures a[i] == b[i] {
        assert SameRule(a[i], b[i]);
        JoinIsInjective(a[i].user, b[i].user);
        JoinIsInjective(a[i].inboundTag, b[i].inboundTag);
      }
    }
  }

  /** With a NUL it is not: two users joined are one user with a NUL inside. */
  lemma SameRulesConfusesNul()
    ensures var one := LiveRule("", "block", [['a', '\0', 'b']], [], [], [], "");
            var two := LiveRule("", "block", ["a", "b"], [], [], [], "");
            one != two && SameRules([one], [two])
  {
    assert Join(["a", "b"], '\0') == ['a', '\0', 'b'] by {
      assert ["a", "b"][1..] == ["b"];
    }
  }

  /** Nor with an empty name: a rule for every user, and one for the user "". */
  lemma SameRulesConfusesEmptyName()
    ensures var one := LiveRule("", "block", [], [], [], [], "");
            var two := LiveRule("", "block", [""], [], [], [], "");
            one != two && SameRules([one], [two]) && NulFreeRules([one]) && NulFreeRules([two])
  {
    var one := LiveRule("", "block", [], [], [], [], "");
    assert one.user != [""];
  }

  // ----- What the process runs, compared with a topology -----

  ghost predicate OutsTrack(run: map<string, RunOutbound>, outs: map<string, Socks>) {
    run.Keys == outs.Keys && forall t | t in run :: run[t].(extra := "") == RunOf(outs[t], "")
  }

  /** The rule as a start loads it. */
  function PlainRule(l: LiveRule): RunRule { WireRule(l).(ruleTag := l.ruleTag) }

  /** Rule for rule, in order, as loaded or as swapped in live. */
  ghost predicate RulesTrack(run: seq<RunRule>, rules: seq<LiveRule>) {
    |run| == |rules| && forall i | 0 <= i < |run| :: run[i] == WireRule(rules[i]) || run[i] == PlainRule(rules[i])
  }

  ghost predicate Tracks(p: Proc, t: LiveTopo) { OutsTrack(p.outbounds, t.outbounds) && RulesTrack(p.rules, t.rules) }

  /** Every rule that leads to a device outbound leads to one that exists. */
  ghost predicate ReferenceClosed(t: LiveTopo) {
    forall i | 0 <= i < |t.rules| && IsDeviceOutboundTag(t.rules[i].outboundTag) ::
        t.rules[i].outboundTag in t.outbounds
  }

  ghost predicate NoDangling(p: Proc) {
    forall i | 0 <= i < |p.rules| && IsDeviceOutboundTag(p.rules[i].outboundTag) ::
        p.rules[i].outboundTag in p.outbounds
  }

  /** An RPC issued in a state without dangling rules: an outbound added is new, an
      outbound removed is there and no rule leads to it, a rule list refers only to
      outbounds that are there. */
  ghost predicate StepSafe(c: Call) {
    NoDangling(c.at) &&
    match c.rpc
    case AddOutbound(o) => o.tag !in c.at.outbounds
    case RemoveOutbound(t) => t in c.at.outbounds && forall i | 0 <= i < |c.at.rules| :: c.at.rules[i].outboundTag != t
    case ReplaceRules(l) => forall i | 0 <= i < |l| && IsDeviceOutboundTag(l[i].outboundTag) ::
      l[i].outboundTag in c.at.outbounds
    case _ => false
  }

  ghost predicate NewCallsSafe(before: seq<Call>, after: seq<Call>) {
    before <= after && forall n | |before| <= n < |after| :: StepSafe(after[n])
  }

  /** The last call there was did not take effect. */
  ghost predicate LastFailed(before: seq<Call>, after: seq<Call>) {
    |before| < |after| && !after[|after| - 1].landed
  }

  /** An outbound in both topologies is another in each. */
  ghost predicate Changes(before: LiveTopo, after: LiveTopo) {
    exists t :: t in before.outbounds && t in after.outbounds && before.outbounds[t] != after.outbounds[t]
  }

  /** What the sync may assume for its step-by-step guarantee. */
  ghost predicate GoodStart(p: Proc, before: LiveTopo, after: LiveTopo) {
    && Tracks(p, before) && ReferenceClosed(before) && ReferenceClosed(after) && Clean(before.rules)
       && Clean(after.rules)
    && forall t | t in before.outbounds || t in after.outbounds :: IsDeviceOutboundTag(t)
  }

  lemma {:induction false} OutboundsAreDevices(outs: seq<Outbound>)
    requires LiveOutbounds(outs).Some?
    ensures forall t | t in LiveOutbounds(outs).value :: IsDeviceOutboundTag(t) && LiveOutbounds(outs).value[t].tag == t
  {
    if outs != [] {
      OutboundsAreDevices(outs[..|outs| - 1]);
    }
  }

  function Added(run: map<string, RunOutbound>, before: map<string, Socks>, after: map<string, Socks>,
                 done: set<string>)
    : map<string, RunOutbound>
  {
    run + (map t | t in done && t in after && t !in before :: RunOf(after[t], ""))
  }

  lemma AddedOne(run: map<string, RunOutbound>, before: map<string, Socks>, after: map<string, Socks>,
                 done: set<string>, tag: string)
    requires tag in after
    ensures var now := Added(run, before, after, done);
            Added(run, before, after, done + {tag}) == if tag in before then now else now[tag := RunOf(after[tag], "")]
  {
  }

  /** One more new outbound: its call is safe, and leaves no rule dangling. */
  lemma AddIsSafe(calls: seq<Call>, at: Proc, o: Socks, landed: bool, base: seq<Call>)
    requires NewCallsSafe(base, calls) && NoDangling(at) && o.tag !in at.outbounds
    ensures NewCallsSafe(base, calls + [Call(AddOutbound(o), at, landed)])
    ensures NoDangling(at.(outbounds := at.outbounds[o.tag := RunOf(o, "")]))
  {
  }

  method AddNewOutbounds(p: XrayProcess, before: LiveTopo, after: LiveTopo) returns (ok: bool)
    requires forall t | t in after.outbounds :: after.outbounds[t].tag == t
    modifies p
    ensures p.Now() == old(p.Now()).(outbounds := p.outbounds)
    ensures ok ==> p.outbounds == Added(old(p.outbounds), before.outbounds, after.outbounds, after.outbounds.Keys)
    ensures ok ==> forall t | t in before.outbounds && t in after.outbounds :: before.outbounds[t] == after.outbounds[t]
    ensures old(p.calls) <= p.calls
    ensures !ok ==> Changes(before, after) || LastFailed(old(p.calls), p.calls)
    ensures NoDangling(old(p.Now())) && old(p.outbounds).Keys == before.outbounds.Keys ==>
              NewCallsSafe(old(p.calls), p.calls) && NoDangling(p.Now())
  {
    ghost var good := NoDangling(p.Now()) && p.outbounds.Keys == before.outbounds.Keys;
    var done: set<string> := {};
    while after.outbounds.Keys - done != {}
      invariant done <= after.outbounds.Keys
      invariant p.Now() == old(p.Now()).(outbounds := p.outbounds)
      invariant p.outbounds == Added(old(p.outbounds), before.outbounds, after.outbounds, done)
      invariant forall t | t in before.outbounds && t in done :: before.outbounds[t] == after.outbounds[t]
      invariant old(p.calls) <= p.calls
      invariant good ==> NewCallsSafe(old(p.calls), p.calls) && NoDangling(p.Now())
    {
      var tag :| tag in after.outbounds.Keys - done;
      AddedOne(old(p.outbounds), before.outbounds, after.outbounds, done, tag);
      if tag in before.outbounds {
        if before.outbounds[tag] != after.outbounds[tag] {
          return false;
        }
      } else {
        ghost var calls, at := p.calls, p.Now();
        var added := p.AddSOCKSOutbound(after.outbounds[tag]);
        if good {
          AddIsSafe(calls, at, after.outbounds[tag], added, old(p.calls));
        }
        if !added {
          return false;
        }
      }
      done := done + {tag};
    }
    NothingLeft(after.outbounds.Keys, done);
    return true;
  }

  /** A process has no dangling rule exactly when its topology has none. */
  lemma TracksHaveNoDangling(p: Proc, t: LiveTopo)
    requires Tracks(p, t)
    ensures NoDangling(p) <==> ReferenceClosed(t)
  {
    forall i | 0 <= i < |p.rules| ensures p.rules[i].outboundTag == t.rules[i].outboundTag {
      assert p.rules[i] == WireRule(t.rules[i]) || p.rules[i] == PlainRule(t.rules[i]);
    }
    if NoDangling(p) {
      forall i | 0 <= i < |t.rules| && IsDeviceOutboundTag(t.rules[i].outboundTag)
        ensures t.rules[i].outboundTag in t.outbounds
      {
        assert p.rules[i].outboundTag in p.outbounds;
      }
    }
  }

  /** Every rule for a device outbound leads to one of these. */
  ghost predicate LeadsTo(p: Proc, tags: set<string>) {
    forall i | 0 <= i < |p.rules| && IsDeviceOutboundTag(p.rules[i].outboundTag) :: p.rules[i].outboundTag in tags
  }

  lemma RemoveIsSafe(calls: seq<Call>, at: Proc, tag: string, landed: bool, base: seq<Call>, kept: set<string>)
    requires NewCallsSafe(base, calls) && NoDangling(at) && LeadsTo(at, kept)
    requires tag in at.outbounds && tag !in kept && IsDeviceOutboundTag(tag)
    ensures NewCallsSafe(base, calls + [Call(Rpc.RemoveOutbound(tag), at, landed)])
    ensures NoDangling(at.(outbounds := at.outbounds - {tag}))
  {
  }

  method RemoveOldOutbounds(p: XrayProcess, before: LiveTopo, after: LiveTopo) returns (ok: bool)
    modifies p
    ensures p.Now() == old(p.Now()).(outbounds := p.outbounds)
    ensures ok ==> p.outbounds == old(p.outbounds) - (before.outbounds.Keys - after.outbounds.Keys)
    ensures old(p.calls) <= p.calls
    ensures !ok ==> LastFailed(old(p.calls), p.calls)
    ensures before.outbounds.Keys + after.outbounds.Keys <= old(p.outbounds).Keys
            && RulesTrack(old(p.rules), after.rules) && ReferenceClosed(after)
            && (forall t | t in before.outbounds :: IsDeviceOutboundTag(t))
            ==> NewCallsSafe(old(p.calls), p.calls) && NoDangling(p.Now())
  {
    var done: set<string> := {};
    var tags := before.outbounds.Keys;
    ghost var good := before.outbounds.Keys + after.outbounds.Keys <= p.outbounds.Keys
                      && RulesTrack(p.rules, after.rules) && ReferenceClosed(after)
                      && (forall t | t in before.outbounds :: IsDeviceOutboundTag(t));
    if good {
      RoutesStay(p.Now(), after);
    }
    while tags - done != {}
      invariant done <= tags == before.outbounds.Keys
      invariant p.Now() == old(p.Now()).(outbounds := p.outbounds)
      invariant p.outbounds == old(p.outbounds) - (done - after.outbounds.Keys)
      invariant old(p.calls) <= p.calls
      invariant good ==> NewCallsSafe(old(p.calls), p.calls) && NoDangling(p.Now())
    {
      var tag :| tag in tags - done;
      if tag !in after.outbounds {
        ghost var calls, at := p.calls, p.Now();
        var removed := p.RemoveOutbound(tag);
        if good {
          RemoveIsSafe(calls, at, tag, removed, old(p.calls), after.outbounds.Keys);
        }
        if !removed {
          return false;
        }
      }
      done := done + {tag};
    }
    NothingLeft(tags, done);
    return true;
  }

  /** Once the new rules are in, no rule leads to a device outbound that is to go. */
  lemma RoutesStay(p: Proc, after: LiveTopo)
    requires after.outbounds.Keys <= p.outbounds.Keys && RulesTrack(p.rules, after.rules) && ReferenceClosed(after)
    ensures LeadsTo(p, after.outbounds.Keys)
  {
    forall i | 0 <= i < |p.rules| && IsDeviceOutboundTag(p.rules[i].outboundTag)
      ensures p.rules[i].outboundTag in after.outbounds
    {
      assert p.rules[i].outboundTag == after.rules[i].outboundTag;
    }
  }

  method SwapRules(p: XrayProcess, before: LiveTopo, after: LiveTopo) returns (ok: bool)
    modifies p
    ensures p.Now() == old(p.Now()).(rules := p.rules)
    ensures ok ==> p.rules == if SameRules(before.rules, after.rules) then old(p.rules) else WireRules(after.rules)
    ensures ok && !SameRules(before.rules, after.rules) ==> forall l | l in after.rules :: Sends(l)
    ensures old(p.calls) <= p.calls
    ensures !ok ==> !SameRules(before.rules, after.rules) && LastFailed(old(p.calls), p.calls)
    ensures NoDangling(old(p.Now())) && ReferenceClosed(after) && after.outbounds.Keys <= old(p.outbounds).Keys ==>
              NewCallsSafe(old(p.calls), p.calls) && NoDangling(p.Now())
  {
    ok := true;
    if !SameRules(before.rules, after.rules) {
      ok := p.ReplaceRoutingRules(after.rules);
    }
  }

  /** The whole edit, when it reports success. */
  ghost predicate Synced(p0: Proc, prev: Config, next: Config, p1: Proc) {
    && TopologyOf(prev).Some? && TopologyOf(next).Some?
    && var before, after := TopologyOf(prev).value, TopologyOf(next).value;
    && (forall t | t in before.outbounds && t in after.outbounds :: before.outbounds[t] == after.outbounds[t])
    && (SameRules(before.rules, after.rules) || forall l | l in after.rules :: Sends(l))
    && p1 == p0.(
         outbounds := Added(p0.outbounds, before.outbounds, after.outbounds, after.outbounds.Keys)
                      - (before.outbounds.Keys - after.outbounds.Keys),
         rules := if SameRules(before.rules, after.rules) then p0.rules else WireRules(after.rules))
  }

  /** Both configurations are usable for a live edit of this process. */
  ghost predicate GoodSync(p: Proc, prev: Config, next: Config) {
    && NoDangling(p)
    && (TopologyOf(prev).Some? && TopologyOf(next).Some? ==>
        GoodStart(p, TopologyOf(prev).value, TopologyOf(next).value))
  }

  /** There is nothing to try: a configuration cannot be edited live, or a kept outbound differs. */
  ghost predicate GivesUp(prev: Config, next: Config) {
    TopologyOf(prev).Some? && TopologyOf(next).Some? ==> Changes(TopologyOf(prev).value, TopologyOf(next).value)
  }

  /** At every step, also when one fails, the running process has no rule without its
      outbound, no outbound is added twice or removed while routed to; on success it is
      the edited process. */
  method SyncDeviceTopology(client: bool, p: XrayProcess, prev: Config, next: Config) returns (ok: bool)
    modifies p
    ensures p.Now() == old(p.Now()).(outbounds := p.outbounds, rules := p.rules)
    ensures ok ==> client && Synced(old(p.Now()), prev, next, p.Now())
    ensures old(p.calls) <= p.calls
    ensures !ok ==> !client || GivesUp(prev, next) || LastFailed(old(p.calls), p.calls)
    ensures GoodSync(old(p.Now()), prev, next) ==> NewCallsSafe(old(p.calls), p.calls) && NoDangling(p.Now())
  {
    if !client {
      return false;
    }
    var b := ParseLiveTopology(prev);
    if b == None {
      return false;
    }
    var a := ParseLiveTopology(next);
    if a == None {
      return false;
    }
    ok := EditTopology(p, prev, next, b.value, a.value);
  }

  method EditTopology(p: XrayProcess, ghost prev: Config, ghost next: Config, before: LiveTopo, after: LiveTopo)
    returns (ok: bool)
    requires TopologyOf(prev) == Some(before) && TopologyOf(next) == Some(after)
    modifies p
    ensures p.Now() == old(p.Now()).(outbounds := p.outbounds, rules := p.rules)
    ensures ok ==> Synced(old(p.Now()), prev, next, p.Now())
    ensures old(p.calls) <= p.calls
    ensures !ok ==> Changes(before, after) || LastFailed(old(p.calls), p.calls)
    ensures NoDangling(old(p.Now())) && GoodStart(old(p.Now()), before, after) ==>
              NewCallsSafe(old(p.calls), p.calls) && NoDangling(p.Now())
  {
    OutboundsAreDevices(next.outbounds);
    ghost var good := NoDangling(p.Now()) && GoodStart(p.Now(), before, after);
    ok := AddNewOutbounds(p, before, after);
    if !ok {
      return;
    }
    ok := SwapRules(p, before, after);
    if !ok {
      return;
    }
    if good && SameRules(before.rules, after.rules) {
      SameRulesIsEquality(before.rules, after.rules);
    }
    assert good ==> RulesTrack(p.rules, after.rules);
    ok := RemoveOldOutbounds(p, before, after);
  }
}
