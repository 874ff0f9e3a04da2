/** A tunnel session that is added to a running node live, the tag by which its rule then
    differs from the one a restart would have loaded, and its removal, which restores the
    restarted process; and a generation that can never be applied live. */
module LiveSession {
  import opened Base
  import opened Text
  import opened DeviceConfig
  import opened DeviceCheck
  import opened Topology
  import opened XrayProcess
  import opened LiveTopology
  import opened LiveEqualsRestart
  import opened UserSync
  import opened Agent
  import opened AgentSafety
  import opened SourceExample
  import opened EgressExamples
  import DeviceEgress
  import EgressGuarantees

  /** 2001:db8::1, the port and the session it comes from. */
  const PEER: Addr := Addr(0x2001_0db8_0000_0000_0000_0000_0000_0001, true)

  function Key(): string { Zeros(64) }

  /** Before: a controlled inbound without clients. */
  function Quiet(): Config { WithDeny([], [], []) }

  /** After: one client, behind one session, as SessionEgressDeclarations makes it. */
  function Session(): Config { One(Key(), PEER, Some("443"), Some(Key())) }

  lemma KeyIsToken()
    ensures IsSessionToken(Key()) && IsHexKey(Key()) && PEER.IsUnicast() && !PEER.Is4In6()
  {
  }

  lemma SessionIsOneDevice()
    ensures OneDevice(Session(), TagOf(Key()), PEER, Key()) && Declarable(Key(), PEER, Some("443"), Some(Key()))
  {
    KeyIsToken();
    PortOfText();
    OneIsOneDevice(Key(), PEER, Some("443"), Some(Key()));
  }

  // ----- The node before -----

  lemma QuietParses()
    ensures Parse(Quiet()) == Ok(Parsed(map[], {}, map[], map[], map[], map[]))
  {
    var cfg := Quiet();
    assert cfg.outbounds == [BLOCK] && cfg.inbounds[0].clients == [];
    TagParses(Key());
    assert DevicesFrom(cfg.outbounds, 0, map[]) == DevicesFrom(cfg.outbounds, 1, map[]) == Ok(map[]);
    var env := Env(cfg, map[], DenyTags(cfg.outbounds));
    assert InboundsFrom(env, 0, EMPTY_ACC) == InboundsFrom(env, 1, EMPTY_ACC) == Ok(EMPTY_ACC);
  }

  lemma DenyIsPlain(outs: map<string, Socks>)
    ensures !IsDeviceOutboundTag("block") && !IsDeviceRule(FALLBACK) && Expressible(FALLBACK, outs)
            && Sends(LiveRuleOf(FALLBACK))
  {
    TagParses(Key());
    assert "" != DENY_PREFIX;
  }

  lemma QuietLive()
    ensures TopologyOf(Quiet()) == Some(LiveTopo(map[], [LiveRuleOf(FALLBACK)]))
  {
    var cfg := Quiet();
    DenyIsPlain(map[]);
    assert cfg.outbounds == [BLOCK] && cfg.rules == [FALLBACK];
    assert cfg.outbounds[..0] == [];
    assert LiveOutbounds(cfg.outbounds) == Some(map[]);
    assert LiveForms(cfg.rules) == [LiveRuleOf(FALLBACK)];
  }

  lemma QuietIsClean()
    ensures CleanConfig(Quiet())
  {
    assert Quiet().rules == [FALLBACK];
  }

  lemma QuietTopology()
    ensures TopologyOf(Quiet()) == Some(LiveTopo(map[], [LiveRuleOf(FALLBACK)])) && CleanConfig(Quiet())
    ensures DeviceEgress.Materialize(Quiet(), map[]) == Quiet() && VlessUsers(Quiet()) == map[]
  {
    var cfg := Quiet();
    QuietLive();
    QuietIsClean();
    assert DeviceEgress.MaterializedAll(cfg.outbounds, map[]) == cfg.outbounds;
    assert InboundUsers(cfg.inbounds, 0, map[]) == InboundUsers(cfg.inbounds, 1, map[]) == map[];
  }

  function Before(): World {
    World(false, Quiet(), "structure", "before", map[], 0, true, Some(Quiet()), Quiet(), None, Quiet(), false,
          Load(Quiet()),
          DeviceEgress.Egress(map[], map[], Some({}), {}, map[], 0, Some(map[]), map[]))
  }

  lemma BeforeIsSafe()
    ensures Inv(Before())
  {
    QuietParses();
    QuietTopology();
    var passwords: map<string, string> := map[];
    assert Quiet() == DeviceEgress.Materialize(Quiet(), passwords);
  }

  // ----- The generation with the session -----

  function Login(): Socks { Socks(TagOf(Key()), LISTEN_IP, SOCKS_PORT, ID, Zeros(64)) }

  function SessionRule(): Rule { Route(Key(), PEER, Some("443"), Some(Key())) }

  function Runtime(): Config { DeviceEgress.Materialize(Session(), Draw(TagOf(Key()))) }

  function After(): LiveTopo {
    LiveTopo(map[TagOf(Key()) := Login()], [LiveRuleOf(SessionRule()), LiveRuleOf(FALLBACK)])
  }

  lemma LoginIsSocks()
    ensures SingleSocks(DeviceEgress.WithPassword(TheOutbound(Key()), Zeros(64))) == Some(Login())
  {
  }

  lemma MaterializedPair(c: Config, plain: Outbound, device: Outbound, password: string)
    requires c.outbounds == [plain, device] && plain.tag != device.tag
    ensures var r := DeviceEgress.Materialize(c, map[device.tag := password]);
            r.outbounds == [plain, DeviceEgress.WithPassword(device, password)] && r.rules == c.rules
                && r.balancers == c.balancers
  {
  }

  lemma ShapeOf(a: Addr, port: Option<string>, token: Option<string>)
    ensures var r := DeviceEgress.Materialize(One(Key(), a, port, token), Draw(TagOf(Key())));
            && r.rules == [Route(Key(), a, port, token), FALLBACK] && r.balancers == 0
            && |r.outbounds| == 2 && r.outbounds[0] == BLOCK
            && r.outbounds[1].tag == TagOf(Key()) && SingleSocks(r.outbounds[1]) == Some(Login())
  {
    TagParses(Key());
    LoginIsSocks();
    OneShape(Key(), a, port, token);
    MaterializedPair(One(Key(), a, port, token), BLOCK, TheOutbound(Key()), Zeros(64));
  }

  lemma RuntimeShape()
    ensures Runtime().rules == [SessionRule(), FALLBACK] && Runtime().balancers == 0
    ensures |Runtime().outbounds| == 2 && Runtime().outbounds[0] == BLOCK
    ensures Runtime().outbounds[1].tag == TagOf(Key()) && SingleSocks(Runtime().outbounds[1]) == Some(Login())
  {
    ShapeOf(PEER, Some("443"), Some(Key()));
  }

  lemma SessionLive()
    ensures LiveRuleOf(SessionRule()).source == [Host(PEER, true)] && LiveRuleOf(SessionRule()).ports == [443]
    ensures LiveRuleOf(SessionRule()).token == Key() && LiveRuleOf(SessionRule()).ruleTag == ""
  {
    PortOfText();
    assert SessionRule().Sources() == [Host(PEER, true)] && SessionRule().Ports() == ["443"];
  }

  lemma SessionIsBound(outs: map<string, Socks>)
    requires outs == map[TagOf(Key()) := Login()]
    ensures SessionBound(SessionRule(), outs)
  {
    KeyIsToken();
    TagParses(Key());
    assert SessionRule().Users() == [DeviceUser(ID)];
  }

  lemma SessionIsExpressible(outs: map<string, Socks>)
    requires outs == map[TagOf(Key()) := Login()]
    ensures Expressible(SessionRule(), outs)
  {
    PortOfText();
    SessionIsBound(outs);
    var r := SessionRule();
    assert r.Sources() == [Host(PEER, true)] && r.Ports() == ["443"];
  }

  lemma LiveOfTwo(outs: seq<Outbound>, s: Socks)
    requires |outs| == 2 && !IsDeviceOutboundTag(outs[0].tag) && IsDeviceOutboundTag(outs[1].tag)
    requires SingleSocks(outs[1]) == Some(s) && Materialized(s)
    ensures LiveOutbounds(outs) == Some(map[outs[1].tag := s])
  {
    assert outs[..1][..0] == [];
    assert LiveOutbounds(outs[..1]) == Some(map[]);
  }

  lemma TopologyFrom(c: Config, outs: map<string, Socks>, rules: seq<LiveRule>)
    requires c.balancers == 0 && LiveOutbounds(c.outbounds) == Some(outs) && |c.rules| == 2
    requires Expressible(c.rules[0], outs) && Expressible(c.rules[1], outs)
    requires rules == [LiveRuleOf(c.rules[0]), LiveRuleOf(c.rules[1])]
    ensures TopologyOf(c) == Some(LiveTopo(outs, rules))
  {
    assert LiveForms(c.rules) == rules;
  }

  lemma RuntimeTopology()
    ensures TopologyOf(Runtime()) == Some(After())
  {
    RuntimeShape();
    DenyIsPlain(After().outbounds);
    TagParses(Key());
    LiveOfTwo(Runtime().outbounds, Login());
    SessionIsExpressible(After().outbounds);
    TopologyFrom(Runtime(), After().outbounds, After().rules);
  }

  lemma SessionIsClean()
    ensures CleanConfig(Session())
  {
    assert Session().rules == [SessionRule(), FALLBACK];
    assert SessionRule().Users() == [DeviceUser(ID)];
  }

  lemma SessionRuleIsDevice()
    ensures IsDeviceRule(SessionRule())
  {
    KeyIsToken();
    PortOfText();
    TagParses(Key());
    CutUnique(ID, '~', Key());
    var tag := TagOf(Key());
    assert tag[|OUTBOUND_PREFIX|..] == ID + ['~'] + Key();
  }

  lemma SameRulesLeft()
    ensures StructuralRules(Quiet().rules) == StructuralRules(Session().rules)
  {
    SessionRuleIsDevice();
    InsertedRuleIsStructural([], SessionRule(), [FALLBACK]);
    assert Quiet().rules == [] + [FALLBACK] && Session().rules == [] + [SessionRule()] + [FALLBACK];
  }

  lemma SameOutboundsLeft()
    ensures StructuralOutbounds(Quiet().outbounds) == StructuralOutbounds(Session().outbounds)
  {
    TagParses(Key());
    var outs := Session().outbounds;
    assert Quiet().outbounds == [BLOCK] == outs[..1] && outs[1] == TheOutbound(Key());
  }

  lemma SameParts(a: Config, b: Config)
    requires StructuralRules(a.rules) == StructuralRules(b.rules)
             && StructuralOutbounds(a.outbounds) == StructuralOutbounds(b.outbounds)
    requires |a.inbounds| == |b.inbounds| == 1 && WithoutClients(a.inbounds[0]) == WithoutClients(b.inbounds[0])
    requires a.balancers == b.balancers && a.extra == b.extra
    ensures SameLocalStructure(a, b)
  {
    assert LocalStructure(a).inbounds == LocalStructure(b).inbounds;
  }

  lemma SameStructure()
    ensures SameLocalStructure(Quiet(), Session())
  {
    SameRulesLeft();
    SameOutboundsLeft();
    SameParts(Quiet(), Session());
  }

  function TheDigest(): Digest {
    Digest(Session(), "structure", "after", [DigestUser("in", ID, DeviceUser(ID), "", 0)])
  }

  function TheUsers(): Users { map[UserKey("in", DeviceUser(ID)) := VlessUser(ID, DeviceUser(ID), "", 0)] }

  lemma DigestMatches()
    ensures Wanted(TheDigest()) == VlessUsers(Session()) == TheUsers()
  {
    var d, cfg := TheDigest(), Session();
    assert DigestUsersFrom(d.users, 0, map[]) == DigestUsersFrom(d.users, 1, TheUsers()) == TheUsers();
    assert cfg.inbounds[0].clients == [TheClient()];
    assert ClientUsers("in", cfg.inbounds[0].clients, 0, map[]) ==
           ClientUsers("in", cfg.inbounds[0].clients, 1, TheUsers()) == TheUsers();
    assert InboundUsers(cfg.inbounds, 0, map[]) == InboundUsers(cfg.inbounds, 1, TheUsers()) == TheUsers();
  }

  // ----- The switch -----

  /** A generation is installed from a node without devices as from a new one. */
  lemma SameInstall(e: DeviceEgress.Egress, cfg: Config, draw: map<string, string>, o: DeviceEgress.Outcome,
                    f: DeviceEgress.Egress)
    requires DeviceEgress.TransformStep(EgressGuarantees.NEW_EGRESS, cfg, true, draw, o, f) && Parse(cfg).Ok?
    requires e == EgressGuarantees.NEW_EGRESS.(authorized := e.authorized, limits := e.limits)
    ensures DeviceEgress.TransformStep(e, cfg, true, draw, o, f)
  {
    var p := Parse(cfg).value;
    assert DeviceEgress.Pruned(e, p) == DeviceEgress.Pruned(EgressGuarantees.NEW_EGRESS, p);
    assert DeviceEgress.Kept(e, p) == DeviceEgress.Kept(EgressGuarantees.NEW_EGRESS, p);
  }

  function Mid(f: DeviceEgress.Egress): World {
    Before().(shapingOK := false, handed := Session(), egress := f, backup := Some(Quiet()),
              canonical := Some(Session()), runtime := Runtime())
  }

  lemma SessionInstalls() returns (f: DeviceEgress.Egress)
    ensures DeviceEgress.TransformStep(Before().egress, Session(), true, Draw(TagOf(Key())),
                                       DeviceEgress.Installed(Runtime()), f)
  {
    KeyIsToken();
    SessionIsOneDevice();
    var o;
    o, f := FirstInstall(Session(), TagOf(Key()), PEER, Key());
    EgressGuarantees.AdmittedState(EgressGuarantees.NEW_EGRESS, Session(), Parse(Session()).value, Draw(TagOf(Key())),
                                   o, f);
    SameInstall(Before().egress, Session(), Draw(TagOf(Key())), o, f);
  }

  function Tried(mid: World): World {
    mid.(proc := mid.proc.(outbounds := map[TagOf(Key()) := RunOf(Login(), "")], rules := WireRules(After().rules),
                           users := TheUsers()),
         users := TheUsers(), usersHash := "after")
  }

  lemma SessionIsSendable()
    ensures forall l | l in After().rules :: Sends(l)
  {
    KeyIsToken();
    SessionLive();
    DenyIsPlain(map[]);
  }

  lemma SessionIsAdded()
    ensures Added(map[], map[], After().outbounds, After().outbounds.Keys) == map[TagOf(Key()) := RunOf(Login(), "")]
  {
  }

  lemma SessionIsSynced(p: Proc)
    requires p.outbounds == map[]
    ensures Synced(p, Quiet(), Runtime(),
                   p.(outbounds := map[TagOf(Key()) := RunOf(Login(), "")], rules := WireRules(After().rules)))
  {
    QuietTopology();
    RuntimeTopology();
    SessionIsSendable();
    SessionIsAdded();
    assert !SameRules([LiveRuleOf(FALLBACK)], After().rules);
  }

  lemma QuietLoads()
    ensures Load(Quiet()).outbounds == map[] && Load(Quiet()).users == map[]
  {
    QuietTopology();
    LoadTracks(Quiet());
  }

  lemma SessionGoesLive(f: DeviceEgress.Egress)
    ensures var w, mid := Before(), Mid(f);
            Incremental(w, TheDigest(), Session()) && TriedLive(w, mid, TheDigest(), Session(), true, true, Tried(mid))
  {
    SameStructure();
    DigestMatches();
    QuietLoads();
    SessionIsSynced(Mid(f).proc);
  }

  lemma SessionNeedsAStart()
    ensures TopologyOf(Quiet()).Some? && TopologyOf(Runtime()).Some? && !NeedsNoStart(Quiet(), Runtime())
  {
    QuietTopology();
    RuntimeTopology();
    RuntimeShape();
    assert Runtime().rules[0].Token() != "" && Runtime().rules[0].ruleTag == "";
  }

  function TheWrite(): WriteResult {
    Transformed(true, Draw(TagOf(Key())), DeviceEgress.Installed(Runtime()), Done)
  }

  function Story(f: DeviceEgress.Egress): History {
    History(TheWrite(), Mid(f), true, Tried(Mid(f)), Graceful, false, Graceful, Unreachable, Mid(f), Graceful, false)
  }

  function End(f: DeviceEgress.Egress): World {
    Tried(Mid(f)).(config := Session(), structureHash := "structure", shapingOK := ShapingOf(Session()))
  }

  lemma SessionSwitches(f: DeviceEgress.Egress)
    requires DeviceEgress.TransformStep(Before().egress, Session(), true, Draw(TagOf(Key())),
                                        DeviceEgress.Installed(Runtime()), f)
    ensures Switched(Before(), TheDigest(), Session(), true, Story(f), End(f)) && Story(f).live
  {
    SessionGoesLive(f);
    assert Wrote(Before().(shapingOK := false), Session(), TheWrite(), Mid(f));
    assert Finished(Before(), TheDigest(), Session(), true, Story(f), End(f));
  }

  /** The rule a restart would have loaded has no tag. */
  lemma SessionRunsTagged(f: DeviceEgress.Egress)
    ensures |End(f).proc.rules| == |Load(Runtime()).rules| == 2
    ensures End(f).proc.rules[0].ruleTag == "session-" + Key() && Load(Runtime()).rules[0].ruleTag == ""
  {
    RuntimeShape();
    assert WireTag(LiveRuleOf(SessionRule())) == "session-" + Key();
  }

  /** A session is added live to the end, and Xray runs another rule list than a restart on
      the same configuration would give it. */
  lemma SessionDiffersFromRestart() returns (f: DeviceEgress.Egress)
    ensures Inv(Before()) && CleanConfig(Session()) && Wanted(TheDigest()) == VlessUsers(Session())
    ensures Switched(Before(), TheDigest(), Session(), true, Story(f), End(f)) && Story(f).live
    ensures Inv(End(f)) && End(f).runtime == Runtime() && End(f).proc.rules != Load(Runtime()).rules
  {
    BeforeIsSafe();
    SessionIsClean();
    DigestMatches();
    f := SessionInstalls();
    SessionSwitches(f);
    SwitchKeeps(Before(), TheDigest(), Session(), true, Story(f), End(f));
    SessionRunsTagged(f);
  }

  // ----- The session is removed again -----

  function TheEnd(): Digest { Digest(Quiet(), "structure", "end", []) }

  /** The egress forgets the device. */
  lemma QuietInstalls(e: DeviceEgress.Egress) returns (g: DeviceEgress.Egress)
    ensures DeviceEgress.TransformStep(e, Quiet(), true, map[], DeviceEgress.Installed(Quiet()), g)
  {
    QuietParses();
    QuietTopology();
    var p := Parse(Quiet()).value;
    assert DeviceEgress.Pruned(e, p).passwords == map[] && DeviceEgress.Kept(e, p) == map[];
    var q := DeviceEgress.Pruned(e, p).(installed := DeviceEgress.Kept(e, p));
    assert DeviceEgress.DrawnPasswords(q.passwords, map[], p.devices.Keys) == map[];
    g := DeviceEgress.AfterInstall(q, p, map[], DeviceEgress.Installed(Quiet()));
  }

  function LastWrite(): WriteResult { Transformed(true, map[], DeviceEgress.Installed(Quiet()), Done) }

  function LastMid(f: DeviceEgress.Egress, g: DeviceEgress.Egress): World {
    End(f).(shapingOK := false, handed := Quiet(), egress := g, backup := Some(Session()),
            canonical := Some(Quiet()), runtime := Quiet())
  }

  function LastTried(mid: World): World {
    mid.(proc := mid.proc.(outbounds := map[], rules := WireRules([LiveRuleOf(FALLBACK)]), users := map[]),
         users := map[], usersHash := "end")
  }

  function LastStory(f: DeviceEgress.Egress, g: DeviceEgress.Egress): History {
    var mid := LastMid(f, g);
    History(LastWrite(), mid, true, LastTried(mid), Graceful, false, Graceful, Unreachable, mid, Graceful, false)
  }

  function Restored(f: DeviceEgress.Egress, g: DeviceEgress.Egress): World {
    LastTried(LastMid(f, g)).(config := Quiet(), structureHash := "structure", shapingOK := ShapingOf(Quiet()))
  }

  lemma RulesDiffer()
    ensures !SameRules(After().rules, [LiveRuleOf(FALLBACK)])
  {
    assert |After().rules| == 2;
  }

  lemma QuietIsSynced(p: Proc)
    requires p.outbounds == map[TagOf(Key()) := RunOf(Login(), "")]
    ensures Synced(p, Runtime(), Quiet(), p.(outbounds := map[], rules := WireRules([LiveRuleOf(FALLBACK)])))
  {
    QuietTopology();
    RuntimeTopology();
    RulesDiffer();
    DenyIsPlain(map[]);
    assert Added(p.outbounds, After().outbounds, map[], {}) == p.outbounds;
    assert p.outbounds - {TagOf(Key())} == map[];
  }

  lemma QuietGoesLive(f: DeviceEgress.Egress, g: DeviceEgress.Egress)
    ensures Incremental(End(f), TheEnd(), Quiet())
    ensures TriedLive(End(f), LastMid(f, g), TheEnd(), Quiet(), true, true, LastTried(LastMid(f, g)))
  {
    SameStructure();
    QuietIsSynced(LastMid(f, g).proc);
  }

  lemma QuietSwitches(f: DeviceEgress.Egress, g: DeviceEgress.Egress)
    requires DeviceEgress.TransformStep(f, Quiet(), true, map[], DeviceEgress.Installed(Quiet()), g)
    ensures Switched(End(f), TheEnd(), Quiet(), true, LastStory(f, g), Restored(f, g)) && LastStory(f, g).live
  {
    QuietGoesLive(f, g);
  }

  /** The edited process needs no start for that, although it is not as a start loads it. */
  lemma RemovalNeedsNoStart(f: DeviceEgress.Egress)
    ensures TopologyOf(Runtime()).Some? && TopologyOf(Quiet()).Some? && NoStartFrom(End(f).proc, Runtime(), Quiet())
  {
    QuietTopology();
    RuntimeTopology();
    RulesDiffer();
    QuietLoads();
    assert Quiet().rules == [FALLBACK];
  }

  /** Removed live from the process that differs, the session leaves exactly what a restart
      would give. */
  lemma RemovalRestores(f: DeviceEgress.Egress) returns (g: DeviceEgress.Egress)
    requires Inv(End(f))
    ensures Switched(End(f), TheEnd(), Quiet(), true, LastStory(f, g), Restored(f, g)) && LastStory(f, g).live
    ensures Restored(f, g).proc == Load(Restored(f, g).runtime)
  {
    QuietTopology();
    g := QuietInstalls(f);
    QuietSwitches(f, g);
    RemovalNeedsNoStart(f);
    LiveSwitchIsRestart(End(f), TheEnd(), Quiet(), LastStory(f, g), Restored(f, g));
  }

  // ----- A generation that never goes live -----

  /** 192.0.2.1. */
  const HOST: Addr := Addr(0xc000_0201, false)

  function PortConfig(): Config { One(Key(), HOST, Some("443"), None) }

  function PortRule(): Rule { Route(Key(), HOST, Some("443"), None) }

  function PortRuntime(): Config { DeviceEgress.Materialize(PortConfig(), Draw(TagOf(Key()))) }

  lemma PortIsExpressible(outs: map<string, Socks>)
    ensures Expressible(PortRule(), outs) && !Sendable(PortRule())
  {
    PortOfText();
    var r := PortRule();
    assert r.Sources() == [Host(HOST, true)] && r.Ports() == ["443"];
    assert Host(HOST, true) in r.Sources();
  }

  lemma PortTopology()
    ensures TopologyOf(PortRuntime()) ==
            Some(LiveTopo(After().outbounds, [LiveRuleOf(PortRule()), LiveRuleOf(FALLBACK)]))
  {
    ShapeOf(HOST, Some("443"), None);
    DenyIsPlain(After().outbounds);
    TagParses(Key());
    LiveOfTwo(PortRuntime().outbounds, Login());
    PortIsExpressible(After().outbounds);
    TopologyFrom(PortRuntime(), After().outbounds, [LiveRuleOf(PortRule()), LiveRuleOf(FALLBACK)]);
  }

  /** The check accepts a device behind one port of an IPv4 host, the agent can express its
      rule, and no live edit of any process ever brings it in. */
  lemma Ipv4PortNeverGoesLive(p0: Proc, p1: Proc)
    ensures OneDevice(PortConfig(), TagOf(Key()), HOST, "") && HOST.IsUnicast()
    ensures TopologyOf(Quiet()).Some? && TopologyOf(PortRuntime()).Some? && !Synced(p0, Quiet(), PortRuntime(), p1)
  {
    KeyIsToken();
    PortOfText();
    OneIsOneDevice(Key(), HOST, Some("443"), None);
    QuietTopology();
    PortTopology();
    PortIsExpressible(After().outbounds);
    ShapeOf(HOST, Some("443"), None);
    assert !SameRules([LiveRuleOf(FALLBACK)], [LiveRuleOf(PortRule()), LiveRuleOf(FALLBACK)]);
    assert PortRuntime().rules[0] in PortRuntime().rules;
    EditCanComplete(p0, Quiet(), PortRuntime());
  }
}
