/** Xray's router: the first rule that matches a connection decides its outbound.
    What parseDeviceConfig accepts is proved safe against this meaning. */
module Router {
  import opened Base
  import opened Text
  import opened DeviceConfig
  import opened DeviceCheck

  /** A connection. `networks` are the non-host source texts that contain its
      address, `holds` the other conditions (port texts that are not one exact port,
      opaque rule keys) that are true of it; both are arbitrary. */
  datatype Conn = Conn(
    inbound: string, email: string, addr: Addr, port: int, networks: set<string>, holds: set<string>)

  predicate CidrHolds(c: Cidr, conn: Conn) {
    match c
    case Host(a, _) => a == conn.addr
    case Network(t) => t in conn.networks
    case Malformed(t) => t in conn.networks
  }

  predicate PortHolds(text: string, conn: Conn) {
    match ExactPort(text)
    case Some(p) => p == conn.port
    case None => text in conn.holds
  }

  predicate Matches(rule: Rule, conn: Conn) {
    && rule.Concerns(conn.email, conn.inbound)
    && (rule.Sources() == [] || exists c | c in rule.Sources() :: CidrHolds(c, conn))
    && (rule.Ports() == [] || exists t | t in rule.Ports() :: PortHolds(t, conn))
    && (rule.extra == "" || rule.extra in conn.holds)
  }

  /** The index of the first matching rule at or after i. */
  function FirstMatch(rules: seq<Rule>, i: nat, conn: Conn): (m: Option<nat>)
    requires i <= |rules|
    ensures m.Some? ==> i <= m.value < |rules| && Matches(rules[m.value], conn)
    ensures forall k | i <= k < (if m.Some? then m.value else |rules|) :: !Matches(rules[k], conn)
    decreases |rules| - i
  {
    if i == |rules| then None
    else if Matches(rules[i], conn) then Some(i)
    else FirstMatch(rules, i + 1, conn)
  }

  // ----- What an accepted scan says -----

  /** No address binding of a is lost or changed in b. */
  ghost predicate Keeps(a: Acc, b: Acc) {
    forall t | t in a.sources :: t in b.sources && b.sources[t] == a.sources[t]
  }

  lemma {:induction false} ScanKeeps(ctx: Ctx, rules: seq<Rule>, i: nat, s: Scan)
    requires i <= |rules| && ScanFrom(ctx, rules, i, s).Ok?
    ensures Keeps(s.acc, ScanFrom(ctx, rules, i, s).value.acc)
    decreases |rules| - i
  {
    if i < |rules| {
      match StepRule(ctx, rules[i], s)
      case Continue(s1) => ScanKeeps(ctx, rules, i + 1, s1);
      case Break(_) =>
      case Fail(_) =>
    }
  }

  /** A source-qualified own rule matches exactly the connections of its claim. */
  lemma ClaimIsMatch(ctx: Ctx, rule: Rule, conn: Conn)
    requires rule.Concerns(ctx.client.email, ctx.inbound) && OwnRoute(ctx, rule) && ClaimOf(rule).Ok?
    requires conn.inbound == ctx.inbound && conn.email == ctx.client.email
    ensures Matches(rule, conn) <==>
            conn.addr == ClaimOf(rule).value.0 && (ClaimOf(rule).value.1 == 0 || conn.port == ClaimOf(rule).value.1)
  {
    var c := rule.Sources()[0];
    assert rule.Sources() == [c];
    assert (exists d | d in rule.Sources() :: CidrHolds(d, conn)) <==> CidrHolds(c, conn) by {
      assert c in rule.Sources();
    }
    if rule.sourcePort.Some? {
      var t := rule.Ports()[0];
      assert rule.Ports() == [t];
      assert (exists u | u in rule.Ports() :: PortHolds(u, conn)) <==> PortHolds(t, conn) by {
        assert t in rule.Ports();
      }
    }
  }

  /** A rule that matches and lets the scan go on claims this very source. */
  lemma MatchedStep(ctx: Ctx, rule: Rule, s: Scan, conn: Conn)
    requires Matches(rule, conn) && conn.inbound == ctx.inbound && conn.email == ctx.client.email
    requires StepRule(ctx, rule, s).Continue?
    ensures OwnRoute(ctx, rule) && ctx.sourceMode && !IsSourceDeny(ctx, rule)
    ensures var sources := StepRule(ctx, rule, s).scan.acc.sources;
            rule.outboundTag in sources && sources[rule.outboundTag] == conn.addr
  {
    ClaimIsMatch(ctx, rule, conn);
  }

  /** Where the scan of one client sends a connection of that client. */
  lemma {:induction false} ScanRoutes(ctx: Ctx, rules: seq<Rule>, i: nat, s: Scan, conn: Conn)
    requires i <= |rules| && ScanFrom(ctx, rules, i, s).Ok?
    requires conn.inbound == ctx.inbound && conn.email == ctx.client.email
    requires var t := ScanFrom(ctx, rules, i, s).value;
             !s.denied && (if ctx.sourceMode then t.denied else t.found && !s.found)
    ensures var t, m := ScanFrom(ctx, rules, i, s).value, FirstMatch(rules, i, conn);
            && m.Some?
            && var r := rules[m.value];
            && (OwnRoute(ctx, r) || (ctx.sourceMode && IsSourceDeny(ctx, r)))
            && (ctx.sourceMode && !IsSourceDeny(ctx, r) ==>
                  r.outboundTag in t.acc.sources && t.acc.sources[r.outboundTag] == conn.addr)
    decreases |rules| - i
  {
    if i < |rules| {
      match StepRule(ctx, rules[i], s)
      case Continue(s1) =>
        if Matches(rules[i], conn) {
          MatchedStep(ctx, rules[i], s, conn);
          ScanKeeps(ctx, rules, i + 1, s1);
        } else {
          ScanRoutes(ctx, rules, i + 1, s1, conn);
        }
      case Break(_) =>
      case Fail(_) =>
    }
  }

  /** A denied client's first matching rule is its deny. */
  lemma {:induction false} DeniedRoutes(rules: seq<Rule>, i: nat, conn: Conn, deny: set<string>)
    requires i <= |rules| && DeniedFrom(rules, i, conn.inbound, conn.email, deny) == Ok(true)
    ensures FirstMatch(rules, i, conn).Some? && rules[FirstMatch(rules, i, conn).value].outboundTag in deny
    decreases |rules| - i
  {
    if i < |rules| && !rules[i].Concerns(conn.email, conn.inbound) {
      DeniedRoutes(rules, i + 1, conn, deny);
    }
  }

  // ----- From the whole check down to one client -----

  lemma {:induction false} ClientReached(env: Env, inbound: Inbound, j: nat, acc: Acc, at: nat) returns (a: Acc)
    requires j <= at < |inbound.clients| && ClientsFrom(env, inbound, j, acc).Ok?
    ensures CheckClient(env, inbound, inbound.clients[at], a).Ok?
    ensures Keeps(CheckClient(env, inbound, inbound.clients[at], a).value, ClientsFrom(env, inbound, j, acc).value)
    decreases |inbound.clients| - j
  {
    var next := CheckClient(env, inbound, inbound.clients[j], acc).value;
    if j == at {
      ClientsKeep(env, inbound, j + 1, next);
      a := acc;
    } else {
      a := ClientReached(env, inbound, j + 1, next, at);
    }
  }

  lemma CheckKeeps(env: Env, inbound: Inbound, client: Client, acc: Acc)
    requires CheckClient(env, inbound, client, acc).Ok?
    ensures Keeps(acc, CheckClient(env, inbound, client, acc).value)
  {
    var acc1 := acc.(identities := acc.identities + {IdentityOf(inbound, client)});
    if CheckManaged(env, inbound, client, acc1).Ok? {
      ScanKeeps(CtxFor(env, inbound, client), env.cfg.rules, 0, FreshScan(acc1));
    }
  }

  lemma {:induction false} ClientsKeep(env: Env, inbound: Inbound, j: nat, acc: Acc)
    requires j <= |inbound.clients| && ClientsFrom(env, inbound, j, acc).Ok?
    ensures Keeps(acc, ClientsFrom(env, inbound, j, acc).value)
    decreases |inbound.clients| - j
  {
    if j < |inbound.clients| {
      CheckKeeps(env, inbound, inbound.clients[j], acc);
      ClientsKeep(env, inbound, j + 1, CheckClient(env, inbound, inbound.clients[j], acc).value);
    }
  }

  lemma {:induction false} InboundsKeep(env: Env, k: nat, acc: Acc)
    requires k <= |env.cfg.inbounds| && InboundsFrom(env, k, acc).Ok?
    ensures Keeps(acc, InboundsFrom(env, k, acc).value)
    decreases |env.cfg.inbounds| - k
  {
    if k < |env.cfg.inbounds| {
      ClientsKeep(env, env.cfg.inbounds[k], 0, acc);
      InboundsKeep(env, k + 1, ClientsFrom(env, env.cfg.inbounds[k], 0, acc).value);
    }
  }

  lemma {:induction false} InboundReached(env: Env, k: nat, acc: Acc, at: nat, j: nat) returns (a: Acc)
    requires k <= at < |env.cfg.inbounds| && j < |env.cfg.inbounds[at].clients| && InboundsFrom(env, k, acc).Ok?
    ensures CheckClient(env, env.cfg.inbounds[at], env.cfg.inbounds[at].clients[j], a).Ok?
    ensures Keeps(CheckClient(env, env.cfg.inbounds[at], env.cfg.inbounds[at].clients[j], a).value,
                  InboundsFrom(env, k, acc).value)
    decreases |env.cfg.inbounds| - k
  {
    var next := ClientsFrom(env, env.cfg.inbounds[k], 0, acc).value;
    if k == at {
      a := ClientReached(env, env.cfg.inbounds[k], 0, acc, j);
      InboundsKeep(env, k + 1, next);
    } else {
      a := InboundReached(env, k + 1, next, at, j);
    }
  }

  function EnvOf(cfg: Config): Env
    requires Parse(cfg).Ok?
  {
    Env(cfg, Parse(cfg).value.devices, DenyTags(cfg.outbounds))
  }

  /** The k-th inbound has a j-th client. */
  predicate HasClient(cfg: Config, k: nat, j: nat) {
    k < |cfg.inbounds| && j < |cfg.inbounds[k].clients|
  }

  lemma Reached(cfg: Config, k: nat, j: nat) returns (a: Acc)
    requires Parse(cfg).Ok? && HasClient(cfg, k, j)
    ensures var c := CheckClient(EnvOf(cfg), cfg.inbounds[k], cfg.inbounds[k].clients[j], a);
            c.Ok? && forall t | t in c.value.sources ::
                       t in Parse(cfg).value.sources && Parse(cfg).value.sources[t] == c.value.sources[t]
  {
    a := InboundReached(EnvOf(cfg), 0, EMPTY_ACC, k, j);
  }

  // ----- Soundness -----

  /** The context in which the check scans the rules for one client. */
  function CtxOf(cfg: Config, k: nat, j: nat): Ctx
    requires Parse(cfg).Ok? && HasClient(cfg, k, j)
  {
    CtxFor(EnvOf(cfg), cfg.inbounds[k], cfg.inbounds[k].clients[j])
  }

  /** The connections the k-th inbound hands to the router for its j-th client. */
  ghost predicate IsConnOf(cfg: Config, k: nat, j: nat, conn: Conn)
    requires HasClient(cfg, k, j)
  {
    conn.inbound == cfg.inbounds[k].tag && conn.email == cfg.inbounds[k].clients[j].email
  }

  /** Every VLESS client of a controlled inbound of an accepted configuration is routed:
      a client without a device to a deny; a device without source-qualified outbounds
      always to its own outbound; a source-qualified device to an outbound of its own
      that is bound to the connection's very address, or to a deny. */
  lemma AcceptedRoutes(cfg: Config, k: nat, j: nat, conn: Conn)
    requires Parse(cfg).Ok? && HasClient(cfg, k, j) && IsConnOf(cfg, k, j, conn)
    requires cfg.inbounds[k].protocol == "vless" && Controlled(EnvOf(cfg), cfg.inbounds[k])
    ensures var p, m := Parse(cfg).value, FirstMatch(cfg.rules, 0, conn);
            && m.Some?
            && var tag := cfg.rules[m.value].outboundTag;
            && var ctx := CtxOf(cfg, k, j);
            && (!Manages(p.devices, ctx.client.id) ==> tag in DenyTags(cfg.outbounds))
            && (Manages(p.devices, ctx.client.id) && !ctx.sourceMode ==>
                  tag in p.devices && p.devices[tag].id == ctx.client.id)
            && (Manages(p.devices, ctx.client.id) && ctx.sourceMode && tag !in DenyTags(cfg.outbounds) ==>
                  && tag in p.devices && p.devices[tag].id == ctx.client.id
                  && tag in p.sources && p.sources[tag] == conn.addr)
  {
    var inbound, client := cfg.inbounds[k], cfg.inbounds[k].clients[j];
    var env := EnvOf(cfg);
    var a := Reached(cfg, k, j);
    if Manages(env.devices, client.id) {
      var acc1 := a.(identities := a.identities + {IdentityOf(inbound, client)});
      ScanRoutes(CtxOf(cfg, k, j), cfg.rules, 0, FreshScan(acc1), conn);
    } else {
      DeniedRoutes(cfg.rules, 0, conn, env.deny);
    }
  }

  // ----- What those tags are -----

  lemma {:induction false} DevicesDescribed(outs: seq<Outbound>, i: nat, acc: map<string, Device>)
    requires i <= |outs| && DevicesFrom(outs, i, acc).Ok?
    ensures var d := DevicesFrom(outs, i, acc).value;
            && (forall t | t in acc :: t in d && d[t] == acc[t])
            && (forall t | t in d && t !in acc :: i <= d[t].index < |outs| && Declares(outs, d[t].index, t, d[t]))
    decreases |outs| - i
  {
    if i < |outs| {
      if IsDeclared(outs[i].tag) {
        DevicesDescribed(outs, i + 1, acc[outs[i].tag := DeviceAt(outs, i)]);
      } else {
        DevicesDescribed(outs, i + 1, acc);
      }
    }
  }

  lemma {:induction false} DeclarationsFound(outs: seq<Outbound>, i: nat, acc: map<string, Device>, n: nat)
    requires i <= n < |outs| && DevicesFrom(outs, i, acc).Ok? && IsDeclared(outs[n].tag)
    ensures var d := DevicesFrom(outs, i, acc).value;
            outs[n].tag !in acc && outs[n].tag in d && d[outs[n].tag].index == n
    decreases |outs| - i
  {
    if !IsDeclared(outs[i].tag) {
      DeclarationsFound(outs, i + 1, acc, n);
    } else if i < n {
      DeclarationsFound(outs, i + 1, acc[outs[i].tag := DeviceAt(outs, i)], n);
    } else {
      DevicesDescribed(outs, i + 1, acc[outs[i].tag := DeviceAt(outs, i)]);
    }
  }

  /** A device outbound that authenticates at the local egress as exactly this device. */
  ghost predicate IsEgressOf(o: Outbound, id: string) {
    && o.protocol == "socks"
    && o.servers == [SocksServer(LISTEN_IP, SOCKS_PORT, [SocksUser(id, PLACEHOLDER)])]
  }

  /** The n-th outbound is the declaration of device d under this tag. */
  ghost predicate Declares(outs: seq<Outbound>, n: nat, tag: string, d: Device) {
    && n < |outs| && d.index == n && outs[n].tag == tag
    && ParseLocalDeviceTag(tag) == Some(DeviceTag(d.id, d.key))
    && IsEgressOf(outs[n], d.id)
  }

  /** `devices` lists exactly the declared outbounds, each tag once, each well formed. */
  lemma DevicesAreOutbounds(cfg: Config, n: nat)
    requires Parse(cfg).Ok? && n < |cfg.outbounds|
    ensures var d, tag := Parse(cfg).value.devices, cfg.outbounds[n].tag;
            && (IsDeclared(tag) <==> tag in d)
            && (tag in d ==> Declares(cfg.outbounds, n, tag, d[tag]))
  {
    DevicesDescribed(cfg.outbounds, 0, map[]);
    if IsDeclared(cfg.outbounds[n].tag) {
      DeclarationsFound(cfg.outbounds, 0, map[], n);
    }
  }

  lemma DevicesAreDeclared(cfg: Config, tag: string)
    requires Parse(cfg).Ok? && tag in Parse(cfg).value.devices
    ensures var d := Parse(cfg).value.devices[tag]; Declares(cfg.outbounds, d.index, tag, d)
    ensures IsDeclared(tag) && Parse(cfg).value.devices[tag].id != ""
  {
    DevicesDescribed(cfg.outbounds, 0, map[]);
  }

  /** Only blackholes bear the tag of a blackhole. */
  ghost predicate DenyMeansDrop(outs: seq<Outbound>) {
    forall m, n | 0 <= m < |outs| && 0 <= n < |outs| && outs[m].protocol == "blackhole" && outs[n].tag == outs[m].tag ::
      outs[n].protocol == "blackhole"
  }

  /** Xray refuses to start with two outbounds of one tag. */
  ghost predicate UniqueTags(outs: seq<Outbound>) {
    forall m, n | 0 <= m < n < |outs| :: outs[m].tag != outs[n].tag
  }

  /** So what it starts with means its denies. */
  lemma UniqueTagsMeanDrop(outs: seq<Outbound>)
    requires UniqueTags(outs)
    ensures DenyMeansDrop(outs)
  {
  }

  /** MAIN RESULT. Under an accepted configuration every connection of a VLESS client
      of a controlled inbound, from any address and port, is matched by some rule, and
      every outbound that carries the first matching rule's tag either drops the
      connection or authenticates at the local egress as that same client: never as
      another device, and never a Freedom outbound. */
  lemma AcceptedIsSafe(cfg: Config, k: nat, j: nat, conn: Conn, n: nat)
    requires Parse(cfg).Ok? && HasClient(cfg, k, j) && IsConnOf(cfg, k, j, conn)
    requires cfg.inbounds[k].protocol == "vless" && Controlled(EnvOf(cfg), cfg.inbounds[k])
    requires DenyMeansDrop(cfg.outbounds) && n < |cfg.outbounds|
    ensures var m := FirstMatch(cfg.rules, 0, conn);
            && m.Some?
            && (cfg.outbounds[n].tag == cfg.rules[m.value].outboundTag ==>
                  cfg.outbounds[n].protocol == "blackhole"
                      || IsEgressOf(cfg.outbounds[n], cfg.inbounds[k].clients[j].id))
  {
    AcceptedRoutes(cfg, k, j, conn);
    DevicesAreOutbounds(cfg, n);
    var tag := cfg.rules[FirstMatch(cfg.rules, 0, conn).value].outboundTag;
    if cfg.outbounds[n].tag == tag && tag in DenyTags(cfg.outbounds) {
      var o :| o in cfg.outbounds && o.protocol == "blackhole" && o.tag == tag;
      var b :| 0 <= b < |cfg.outbounds| && cfg.outbounds[b] == o;
      assert cfg.outbounds[n].tag == cfg.outbounds[b].tag;
    }
  }

  /** One client that is denied, where the deny tag names a Freedom outbound too. */
  function SharedDeny(): Config {
    Config([Outbound("block", "freedom", [], ""), Outbound("block", "blackhole", [], "")],
           [Inbound("in", "vless", [Client("u", "", DeviceUser("u"), "", 0)], "")],
           [Rule("field", Some([DeviceUser("u")]), None, "block", "", None, None, None, ""),
            Rule("field", None, Some(["in"]), "block", "", None, None, None, "")], 0, NoRates, "")
  }

  lemma SharedDenyIsAccepted()
    ensures Parse(SharedDeny()).Ok? && Parse(SharedDeny()).value.devices == map[]
            && DenyTags(SharedDeny().outbounds) == {"block"}
  {
    var cfg := SharedDeny();
    var env := Env(cfg, map[], DenyTags(cfg.outbounds));
    assert cfg.outbounds[1] in cfg.outbounds;
    assert DenyTags(cfg.outbounds) == {"block"};
    assert DevicesFrom(cfg.outbounds, 0, map[]) == DevicesFrom(cfg.outbounds, 1, map[]) ==
           DevicesFrom(cfg.outbounds, 2, map[]) == Ok(map[]);
    assert FallbackFrom(cfg.rules, 1, "in", env.deny) by {
      assert cfg.rules[1].Inbounds() == ["in"];
    }
    assert ExplicitlyDenied(cfg.rules, "in", cfg.inbounds[0].clients[0], env.deny) == Ok(true);
    var acc := CheckClient(env, cfg.inbounds[0], cfg.inbounds[0].clients[0], EMPTY_ACC).value;
    assert ClientsFrom(env, cfg.inbounds[0], 0, EMPTY_ACC) == ClientsFrom(env, cfg.inbounds[0], 1, acc) == Ok(acc);
    assert InboundsFrom(env, 0, EMPTY_ACC) == InboundsFrom(env, 1, acc) == Ok(acc);
  }

  /** That condition is needed: with a tag shared by a blackhole and a Freedom
      outbound the check counts the tag as a deny, whichever of them Xray would use, and
      accepts a configuration that sends a denied client's every connection to that tag. */
  lemma SharedDenyTagIsAccepted(conn: Conn)
    requires conn.inbound == "in" && conn.email == DeviceUser("u")
    ensures var cfg, m := SharedDeny(), FirstMatch(SharedDeny().rules, 0, conn);
            && Parse(cfg).Ok? && HasClient(cfg, 0, 0) && IsConnOf(cfg, 0, 0, conn)
            && cfg.inbounds[0].protocol == "vless" && Controlled(EnvOf(cfg), cfg.inbounds[0])
            && m.Some? && cfg.outbounds[0].tag == cfg.rules[m.value].outboundTag
               && cfg.outbounds[0].protocol == "freedom"
            && !DenyMeansDrop(cfg.outbounds) && !UniqueTags(cfg.outbounds)
  {
    var cfg := SharedDeny();
    SharedDenyIsAccepted();
    assert Controlled(EnvOf(cfg), cfg.inbounds[0]) by {
      assert cfg.rules[1] in cfg.rules && cfg.rules[1].Inbounds() == ["in"];
    }
    assert Matches(cfg.rules[0], conn) by {
      assert cfg.rules[0].Users() == [DeviceUser("u")];
    }
    assert cfg.outbounds[0].tag == cfg.outbounds[1].tag;
  }

  /** A speed-limited inbound carries no client of another protocol. */
  lemma LimitedIsVlessOnly(cfg: Config, k: nat, j: nat)
    requires Parse(cfg).Ok? && HasClient(cfg, k, j) && Limited(cfg.inbounds[k])
    ensures cfg.inbounds[k].protocol == "vless"
  {
    var a := Reached(cfg, k, j);
  }
}
