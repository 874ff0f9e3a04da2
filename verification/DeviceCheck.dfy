/** parseDeviceConfig: the static check that decides whether a generation's device
    egress is safe to serve. The functions are the specification; the methods at the
    end are the loops, proved to compute it. */
module DeviceCheck {
  import opened Base
  import opened Text
  import opened DeviceConfig

  const LIMIT_PREFIX: string := "vless-reality-limit-"

  datatype ParseError =
    | InvalidTag | InvalidDeclaration | InvalidEndpoint | DuplicateEgress
    | MissingDenyFallback | ControlledWithoutEgress | InvalidEmail
    | InvalidSessionRoute | ConflictingToken | NoFirstMatchRouting
    | NotExactSource | BadSourceRoute | BadSourcePort | ManyAddresses | ManyPorts | NotUnconditional
    | NoRouteOrDeny | NoRouteOnInbound | NoClient | InvalidRates | InvalidRate

  /** A declared device outbound: its index in the outbound list and what its tag,
      parsed once at its declaration, names. */
  datatype Device = Device(index: nat, id: string, key: string)

  datatype Parsed = Parsed(
    devices: map<string, Device>,       // outbound tag -> declaration
    identities: set<Identity>,
    sources: map<string, Addr>,         // outbound tag -> the one address routed to it
    ports: map<string, int>,            // outbound tag -> exact source port, 0 for none
    tokens: map<string, string>,        // outbound tag -> session token
    rates: map<string, int>)            // device -> Mbps, 0 for unlimited

  /** speedtier.ParseLimitTag */
  function ParseLimitTag(tag: string): (r: Option<int>)
    ensures r.Some? ==> r.value > 0
  {
    if !(LIMIT_PREFIX <= tag) then None
    else match Atoi(tag[|LIMIT_PREFIX|..])
         case Some(n) => if n > 0 then Some(n) else None
         case None => None
  }

  // ----- Declared device outbounds -----

  function CheckOutbound(o: Outbound): (r: Option<ParseError>)
    ensures r == None ==>
              && ParseLocalDeviceTag(o.tag).Some?
              && o.protocol == "socks"
              && o.servers == [SocksServer(LISTEN_IP, SOCKS_PORT,
                                           [SocksUser(ParseLocalDeviceTag(o.tag).value.id, PLACEHOLDER)])]
  {
    match ParseLocalDeviceTag(o.tag)
    case None => Some(InvalidTag)
    case Some(t) =>
      if o.protocol != "socks" || |o.servers| != 1 then Some(InvalidDeclaration)
      else
        var server := o.servers[0];
        if server.address != LISTEN_IP || server.port != SOCKS_PORT || |server.users| != 1
           || server.users[0].user != t.id || server.users[0].pass != PLACEHOLDER then Some(InvalidEndpoint)
        else
          assert server.users == [server.users[0]] && o.servers == [server];
          None
  }

  function DeviceAt(outs: seq<Outbound>, i: nat): Device
    requires i < |outs| && CheckOutbound(outs[i]) == None
  {
    var t := ParseLocalDeviceTag(outs[i].tag).value;
    Device(i, t.id, t.key)
  }

  function DevicesFrom(outs: seq<Outbound>, i: nat, acc: map<string, Device>): Result<map<string, Device>, ParseError>
    requires i <= |outs|
    decreases |outs| - i
  {
    if i == |outs| then Ok(acc)
    else if !IsDeclared(outs[i].tag) then DevicesFrom(outs, i + 1, acc)
    else match CheckOutbound(outs[i])
         case Some(e) => Err(e)
         case None =>
           if outs[i].tag in acc then Err(DuplicateEgress)
           else DevicesFrom(outs, i + 1, acc[outs[i].tag := DeviceAt(outs, i)])
  }

  /** Tags under which some outbound is a blackhole. */
  function DenyTags(outs: seq<Outbound>): set<string> {
    set o | o in outs && o.protocol == "blackhole" :: o.tag
  }

  predicate Manages(devices: map<string, Device>, id: string) {
    exists tag | tag in devices :: devices[tag].id == id
  }

  // ----- The rules as one client on one inbound meets them -----

  /** Some outbound of the device is source-qualified. */
  predicate IsSourceMode(devices: map<string, Device>, id: string) {
    exists tag | tag in devices :: devices[tag].id == id && devices[tag].key != ""
  }

  datatype Ctx = Ctx(inbound: string, client: Client, devices: map<string, Device>, deny: set<string>, sourceMode: bool)

  /** The facts parsing accumulates over all clients. */
  datatype Acc = Acc(
    identities: set<Identity>,
    sources: map<string, Addr>,
    ports: map<string, int>,
    tokens: map<string, string>,
    matched: set<string>,
    rates: map<string, int>)

  /** The facts one client's scan accumulates on top. `seen` holds, for every source
      address met, the ports claimed on it (0 for a rule without a port). */
  datatype Scan = Scan(acc: Acc, found: bool, denied: bool, clientMatched: set<string>, seen: map<Addr, set<int>>)

  datatype Step = Continue(scan: Scan) | Break(scan: Scan) | Fail(error: ParseError)

  predicate IsSessionToken(token: string) {
    |token| == 64 && forall i | 0 <= i < |token| :: IsLowerHex(token[i])
  }

  predicate Strict(rule: Rule) { rule.kind == "field" && rule.extra == "" }

  /** An unconditional deny, as a source-qualified device needs one. */
  predicate IsSourceDeny(ctx: Ctx, rule: Rule) {
    && Strict(rule) && rule.source == None && rule.sourcePort == None && rule.sessionToken == None
    && rule.outboundTag in ctx.deny
  }

  /** The tag, declared or not, names this very session of this device. */
  predicate IsSessionTag(tag: string, id: string, token: string) {
    ParseLocalDeviceTag(tag) == Some(DeviceTag(id, token))
  }

  /** A rule with a session token. */
  predicate SessionRouteOk(ctx: Ctx, rule: Rule) {
    && ctx.sourceMode && rule.source.Some? && rule.sourcePort.Some?
    && IsSessionTag(rule.outboundTag, ctx.client.id, rule.Token())
    && IsSessionToken(rule.Token())
    && (rule.ruleTag == "" || rule.ruleTag == "session-" + rule.Token())
  }

  /** The rule is this very client's, and names one of its declared outbounds. */
  predicate OwnRoute(ctx: Ctx, rule: Rule) {
    && Strict(rule)
    && rule.outboundTag in ctx.devices
    && ctx.devices[rule.outboundTag].id == ctx.client.id
    && rule.Users() == [ctx.client.email]
    && (rule.Token() == "" || ctx.devices[rule.outboundTag].key == rule.Token())
  }

  /** The exact source a qualified rule claims: a host, and a port or 0. */
  function ClaimOf(rule: Rule): Result<(Addr, int), ParseError> {
    if |rule.Sources()| != 1 then Err(NotExactSource)
    else match rule.Sources()[0]
         case Host(a, _) =>
           if a.Is4In6() then Err(BadSourceRoute)
           else if rule.sourcePort == None then Ok((a, 0))
           else if |rule.Ports()| != 1 then Err(BadSourcePort)
           else (match ExactPort(rule.Ports()[0])
                 case Some(p) => Ok((a, p))
                 case None => Err(BadSourcePort))
         case _ => Err(BadSourceRoute)
  }

  function PortsAt(seen: map<Addr, set<int>>, a: Addr): set<int> {
    if a in seen then seen[a] else {}
  }

  /** A rule without a port covers every port of its address. */
  predicate Overlaps(seen: map<Addr, set<int>>, a: Addr, p: int) {
    p in PortsAt(seen, a) || (p == 0 && PortsAt(seen, a) != {}) || (p != 0 && 0 in PortsAt(seen, a))
  }

  function PortOf(ports: map<string, int>, tag: string): int {
    if tag in ports then ports[tag] else 0
  }

  function StepSession(ctx: Ctx, rule: Rule, acc: Acc): Result<Acc, ParseError> {
    if rule.Token() == "" then Ok(acc)
    else if !SessionRouteOk(ctx, rule) then Err(InvalidSessionRoute)
    else if rule.outboundTag in acc.tokens && acc.tokens[rule.outboundTag] != rule.Token() then Err(ConflictingToken)
    else Ok(acc.(tokens := acc.tokens[rule.outboundTag := rule.Token()]))
  }

  function StepSource(ctx: Ctx, rule: Rule, s: Scan): Result<Scan, ParseError>
    requires OwnRoute(ctx, rule)
  {
    if ctx.sourceMode then
      if ctx.devices[rule.outboundTag].key == "" then Err(NotExactSource)
      else match ClaimOf(rule)
           case Err(e) => Err(e)
           case Ok((a, p)) =>
             if Overlaps(s.seen, a, p) then Err(BadSourceRoute)
             else if rule.outboundTag in s.acc.sources && s.acc.sources[rule.outboundTag] != a then Err(ManyAddresses)
             else if PortOf(s.acc.ports, rule.outboundTag) != 0 && PortOf(s.acc.ports, rule.outboundTag) != p then
                  Err(ManyPorts)
             else Ok(s.(seen := s.seen[a := PortsAt(s.seen, a) + {p}],
                        acc := s.acc.(sources := s.acc.sources[rule.outboundTag := a],
                                      ports := s.acc.ports[rule.outboundTag := p])))
    else if rule.source.Some? || rule.sourcePort.Some? then Err(NotUnconditional)
    else Ok(s)
  }

  function StepRule(ctx: Ctx, rule: Rule, s: Scan): Step {
    if !rule.Concerns(ctx.client.email, ctx.inbound) then Continue(s)
    else if ctx.sourceMode && IsSourceDeny(ctx, rule) then Break(s.(denied := true))
    else match StepSession(ctx, rule, s.acc)
         case Err(e) => Fail(e)
         case Ok(acc) =>
           if !OwnRoute(ctx, rule) then Fail(NoFirstMatchRouting)
           else match StepSource(ctx, rule, s.(acc := acc))
                case Err(e) => Fail(e)
                case Ok(s1) =>
                  var s2 := s1.(found := true,
                                acc := s1.acc.(matched := s1.acc.matched + {rule.outboundTag}),
                                clientMatched := s1.clientMatched + {rule.outboundTag});
                  if ctx.sourceMode then Continue(s2) else Break(s2)
  }

  function ScanFrom(ctx: Ctx, rules: seq<Rule>, i: nat, s: Scan): Result<Scan, ParseError>
    requires i <= |rules|
    decreases |rules| - i
  {
    if i == |rules| then Ok(s)
    else match StepRule(ctx, rules[i], s)
         case Continue(s1) => ScanFrom(ctx, rules, i + 1, s1)
         case Break(s1) => Ok(s1)
         case Fail(e) => Err(e)
  }

  // ----- A client without device egress that the rules deny outright -----

  predicate ExactUserDeny(rule: Rule, email: string, deny: set<string>) {
    && rule.kind == "field" && rule.Users() == [email] && rule.outboundTag in deny
    && rule.inboundTag == None && rule.source == None && rule.sourcePort == None
    && rule.sessionToken == None && rule.extra == ""
  }

  /** The unconditional deny every controlled inbound keeps, looked for after i. */
  function FallbackFrom(rules: seq<Rule>, i: nat, inbound: string, deny: set<string>): bool
    requires i <= |rules|
    decreases |rules| - i
  {
    if i == |rules| then false
    else
      var rule := rules[i];
      if rule.Users() != [] || inbound !in rule.Inbounds() then FallbackFrom(rules, i + 1, inbound, deny)
      else
        && rule.kind == "field" && |rule.Inbounds()| == 1 && rule.outboundTag in deny
        && rule.user == None && rule.source == None && rule.sourcePort == None
        && rule.sessionToken == None && rule.extra == ""
  }

  function DeniedFrom(rules: seq<Rule>, i: nat, inbound: string, email: string, deny: set<string>)
    : Result<bool, ParseError>
    requires i <= |rules|
    decreases |rules| - i
  {
    if i == |rules| then Ok(false)
    else if !rules[i].Concerns(email, inbound) then DeniedFrom(rules, i + 1, inbound, email, deny)
    else if !ExactUserDeny(rules[i], email, deny) then Ok(false)
    else if FallbackFrom(rules, i + 1, inbound, deny) then Ok(true)
    else Err(MissingDenyFallback)
  }

  function ExplicitlyDenied(rules: seq<Rule>, inbound: string, client: Client, deny: set<string>)
    : Result<bool, ParseError>
  {
    if client.id == "" || client.email != DeviceUser(client.id) then Ok(false)
    else DeniedFrom(rules, 0, inbound, client.email, deny)
  }

  // ----- All clients of all inbounds -----

  datatype Env = Env(cfg: Config, devices: map<string, Device>, deny: set<string>)

  predicate Limited(inbound: Inbound) { ParseLimitTag(inbound.tag).Some? }

  predicate Controlled(env: Env, inbound: Inbound) {
    || Limited(inbound)
    || env.devices != map[]
    || exists rule | rule in env.cfg.rules :: inbound.tag in rule.Inbounds() && rule.outboundTag in env.deny
  }

  function StricterTier(rates: map<string, int>, id: string, limit: int): map<string, int> {
    if id !in rates || (limit > 0 && (rates[id] == 0 || limit < rates[id])) then rates[id := limit] else rates
  }

  function CtxFor(env: Env, inbound: Inbound, client: Client): Ctx {
    Ctx(inbound.tag, client, env.devices, env.deny, IsSourceMode(env.devices, client.id))
  }

  function FreshScan(acc: Acc): Scan { Scan(acc, false, false, {}, map[]) }

  /** The routing checks of one managed VLESS client. */
  function CheckManaged(env: Env, inbound: Inbound, client: Client, acc: Acc): Result<Acc, ParseError> {
    var ctx := CtxFor(env, inbound, client);
    if client.email != DeviceUser(client.id) then Err(InvalidEmail)
    else match ScanFrom(ctx, env.cfg.rules, 0, FreshScan(acc))
         case Err(e) => Err(e)
         case Ok(s) =>
           if !s.found || (ctx.sourceMode && !s.denied) then Err(NoRouteOrDeny)
           else if exists tag | tag in env.devices :: env.devices[tag].id == client.id && tag !in s.clientMatched
           then Err(NoRouteOnInbound)
           else Ok(s.acc.(rates := StricterTier(s.acc.rates, client.id, ParseLimitTag(inbound.tag).GetOr(0))))
  }

  function CheckClient(env: Env, inbound: Inbound, client: Client, acc: Acc): Result<Acc, ParseError> {
    var acc1 := acc.(identities := acc.identities + {IdentityOf(inbound, client)});
    var vless := inbound.protocol == "vless";
    var managed := Manages(env.devices, client.id);
    var denied := if vless && !managed then ExplicitlyDenied(env.cfg.rules, inbound.tag, client, env.deny)
                  else Ok(false);
    match denied
    case Err(e) => Err(e)
    case Ok(true) => Ok(acc1)
    case Ok(false) =>
      if (Limited(inbound) || (Controlled(env, inbound) && vless)) && (!vless || !managed) then
           Err(ControlledWithoutEgress)
      else if !vless || !managed then Ok(acc1)
      else CheckManaged(env, inbound, client, acc1)
  }

  function ClientsFrom(env: Env, inbound: Inbound, j: nat, acc: Acc): Result<Acc, ParseError>
    requires j <= |inbound.clients|
    decreases |inbound.clients| - j
  {
    if j == |inbound.clients| then Ok(acc)
    else match CheckClient(env, inbound, inbound.clients[j], acc)
         case Err(e) => Err(e)
         case Ok(acc1) => ClientsFrom(env, inbound, j + 1, acc1)
  }

  function InboundsFrom(env: Env, k: nat, acc: Acc): Result<Acc, ParseError>
    requires k <= |env.cfg.inbounds|
    decreases |env.cfg.inbounds| - k
  {
    if k == |env.cfg.inbounds| then Ok(acc)
    else match ClientsFrom(env, env.cfg.inbounds[k], 0, acc)
         case Err(e) => Err(e)
         case Ok(acc1) => InboundsFrom(env, k + 1, acc1)
  }

  // ----- The whole check -----

  const EMPTY_ACC: Acc := Acc({}, map[], map[], map[], {}, map[])

  /** An explicit rate table replaces the tier of every device that has one. */
  function ApplyRateTable(rates: map<string, int>, table: RateTable): Result<map<string, int>, ParseError> {
    match table
    case NoRates => Ok(rates)
    case BadRates => Err(InvalidRates)
    case Rates(entries) =>
      if exists id | id in rates :: id !in entries || entries[id] == None || entries[id].value < 0 then Err(InvalidRate)
      else Ok(map id | id in rates :: entries[id].value)
  }

  function Parse(cfg: Config): Result<Parsed, ParseError> {
    match DevicesFrom(cfg.outbounds, 0, map[])
    case Err(e) => Err(e)
    case Ok(devices) =>
      match InboundsFrom(Env(cfg, devices, DenyTags(cfg.outbounds)), 0, EMPTY_ACC)
      case Err(e) => Err(e)
      case Ok(acc) =>
        if exists tag | tag in devices :: tag !in acc.matched then Err(NoClient)
        else match ApplyRateTable(acc.rates, cfg.rates)
             case Err(e) => Err(e)
             case Ok(rates) => Ok(Parsed(devices, acc.identities, acc.sources, acc.ports, acc.tokens, rates))
  }

  // ----- The loops -----

  method FindDevices(outs: seq<Outbound>) returns (r: Result<map<string, Device>, ParseError>)
    ensures r == DevicesFrom(outs, 0, map[])
  {
    var devices: map<string, Device> := map[];
    for i := 0 to |outs|
      invariant DevicesFrom(outs, i, devices) == DevicesFrom(outs, 0, map[])
    {
      var o := outs[i];
      if IsDeclared(o.tag) {
        match CheckOutbound(o) {
          case Some(e) => return Err(e);
          case None =>
        }
        if o.tag in devices {
          return Err(DuplicateEgress);
        }
        devices := devices[o.tag := DeviceAt(outs, i)];
      }
    }
    return Ok(devices);
  }

  method ScanRules(ctx: Ctx, rules: seq<Rule>, acc: Acc) returns (r: Result<Scan, ParseError>)
    ensures r == ScanFrom(ctx, rules, 0, FreshScan(acc))
  {
    var s := FreshScan(acc);
    for i := 0 to |rules|
      invariant ScanFrom(ctx, rules, i, s) == ScanFrom(ctx, rules, 0, FreshScan(acc))
    {
      match StepRule(ctx, rules[i], s) {
        case Continue(s1) => s := s1;
        case Break(s1) => return Ok(s1);
        case Fail(e) => return Err(e);
      }
    }
    return Ok(s);
  }

  method CheckOne(env: Env, inbound: Inbound, limit: Option<int>, controlled: bool, client: Client, acc: Acc)
    returns (r: Result<Acc, ParseError>)
    requires limit == ParseLimitTag(inbound.tag) && controlled == Controlled(env, inbound)
    ensures r == CheckClient(env, inbound, client, acc)
  {
    var next := acc.(identities := acc.identities + {IdentityOf(inbound, client)});
    var vless, managed := inbound.protocol == "vless", Manages(env.devices, client.id);
    if vless && !managed {
      match ExplicitlyDenied(env.cfg.rules, inbound.tag, client, env.deny) {
        case Err(e) => return Err(e);
        case Ok(true) => return Ok(next);
        case Ok(false) =>
      }
    }
    if (limit.Some? || (controlled && vless)) && (!vless || !managed) {
      return Err(ControlledWithoutEgress);
    }
    if !vless || !managed {
      return Ok(next);
    }
    if client.email != DeviceUser(client.id) {
      return Err(InvalidEmail);
    }
    var ctx := CtxFor(env, inbound, client);
    var scan := ScanRules(ctx, env.cfg.rules, next);
    if scan.Err? {
      return Err(scan.error);
    }
    var s := scan.value;
    if !s.found || (ctx.sourceMode && !s.denied) {
      return Err(NoRouteOrDeny);
    }
    if exists tag | tag in env.devices :: env.devices[tag].id == client.id && tag !in s.clientMatched {
      return Err(NoRouteOnInbound);
    }
    return Ok(s.acc.(rates := StricterTier(s.acc.rates, client.id, limit.GetOr(0))));
  }

  method CheckInbound(env: Env, inbound: Inbound, acc: Acc) returns (r: Result<Acc, ParseError>)
    ensures r == ClientsFrom(env, inbound, 0, acc)
  {
    var limit := ParseLimitTag(inbound.tag);
    var controlled := limit.Some? || env.devices != map[];
    for i := 0 to |env.cfg.rules|
      invariant controlled <==>
                || limit.Some? || env.devices != map[]
                || exists m | 0 <= m < i ::
                    inbound.tag in env.cfg.rules[m].Inbounds()
                    && env.cfg.rules[m].outboundTag in env.deny
    {
      if inbound.tag in env.cfg.rules[i].Inbounds() && env.cfg.rules[i].outboundTag in env.deny {
        controlled := true;
      }
    }
    var cur := acc;
    for j := 0 to |inbound.clients|
      invariant ClientsFrom(env, inbound, j, cur) == ClientsFrom(env, inbound, 0, acc)
    {
      var next := CheckOne(env, inbound, limit, controlled, inbound.clients[j], cur);
      if next.Err? {
        return next;
      }
      cur := next.value;
    }
    return Ok(cur);
  }

  method ParseDeviceConfig(cfg: Config) returns (r: Result<Parsed, ParseError>)
    ensures r == Parse(cfg)
  {
    var found := FindDevices(cfg.outbounds);
    match found {
      case Err(e) => return Err(e);
      case Ok(devices) =>
        var env := Env(cfg, devices, DenyTags(cfg.outbounds));
        var acc := EMPTY_ACC;
        for k := 0 to |cfg.inbounds|
          invariant InboundsFrom(env, k, acc) == InboundsFrom(env, 0, EMPTY_ACC)
        {
          var step := CheckInbound(env, cfg.inbounds[k], acc);
          match step {
            case Err(e) => return Err(e);
            case Ok(acc1) => acc := acc1;
          }
        }
        if exists tag | tag in devices :: tag !in acc.matched {
          return Err(NoClient);
        }
        match ApplyRateTable(acc.rates, cfg.rates) {
          case Err(e) => return Err(e);
          case Ok(rates) => return Ok(Parsed(devices, acc.identities, acc.sources, acc.ports, acc.tokens, rates));
        }
    }
  }

  /** A limit tag is its prefix and a positive number, as it is printed or in another spelling
      of the same number. */
  lemma LimitTagExactly(tag: string, n: int)
    ensures ParseLimitTag(tag) == Some(n) <==>
            n > 0 && exists digits :: tag == "vless-reality-limit-" + digits && Atoi(digits) == Some(n)
    ensures 0 < n <= MAX_INT64 ==> ParseLimitTag("vless-reality-limit-" + Itoa(n)) == Some(n)
  {
    if LIMIT_PREFIX <= tag {
      assert tag == LIMIT_PREFIX + tag[|LIMIT_PREFIX|..];
    }
    if digits :| tag == "vless-reality-limit-" + digits && Atoi(digits) == Some(n) {
      assert tag[|LIMIT_PREFIX|..] == digits;
    }
    if 0 < n <= MAX_INT64 {
      AtoiItoa(n);
      assert (LIMIT_PREFIX + Itoa(n))[|LIMIT_PREFIX|..] == Itoa(n);
    }
  }
}
