/** The running Xray process: what a start loads from a runtime configuration, and what
    the agent's gRPC calls change in it. A call that fails changes nothing. */
module XrayProcess {
  import opened Base
  import opened Text
  import opened DeviceConfig
  import opened Topology

  /** A device outbound in the process; `extra` is what only a start can give it. */
  datatype RunOutbound = RunOutbound(address: string, port: int, user: string, pass: string, extra: string)

  /** A routing rule in the process. */
  datatype RunRule = RunRule(
    outboundTag: string, user: seq<string>, inboundTag: seq<string>, source: seq<Cidr>, ports: seq<string>,
    ruleTag: string, extra: string)

  /** Everything else that a start loads and no live edit touches: the other outbounds, and the
      inbounds with their clients, but for those of VLESS. */
  datatype Structure = Structure(outbounds: seq<Outbound>, inbounds: seq<Inbound>, balancers: nat, extra: string)

  datatype Proc = Proc(
    running: bool,
    structure: Structure,
    outbounds: map<string, RunOutbound>,
    rules: seq<RunRule>,
    users: map<UserKey, VlessUser>)

  /** A SOCKS outbound and a routing rule as the gRPC client takes them. */
  datatype Socks = Socks(tag: string, address: string, port: int, user: string, pass: string)

  datatype LiveRule = LiveRule(
    ruleTag: string, outboundTag: string, user: seq<string>, inboundTag: seq<string>, source: seq<Cidr>,
    ports: seq<int>, token: string)

  datatype Rpc =
    | AddOutbound(outbound: Socks)
    | RemoveOutbound(tag: string)
    | ReplaceRules(rules: seq<LiveRule>)
    | AddUser(inbound: string, user: VlessUser)
    | RemoveUser(key: UserKey)

  /** One call, with the process as it found it and whether it took effect. */
  datatype Call = Call(rpc: Rpc, at: Proc, landed: bool)

  // ----- Loading -----

  function OtherOutbounds(outs: seq<Outbound>): seq<Outbound> {
    if outs == [] then []
    else (if IsDeviceOutboundTag(outs[0].tag) then [] else [outs[0]]) + OtherOutbounds(outs[1..])
  }

  function LoadedInbound(i: Inbound): Inbound {
    Inbound(i.tag, i.protocol, if i.protocol == "vless" then [] else i.clients, i.extra)
  }

  function LoadedInbounds(ins: seq<Inbound>): (r: seq<Inbound>)
    ensures |r| == |ins| && forall k | 0 <= k < |r| :: r[k] == LoadedInbound(ins[k])
  {
    seq(|ins|, k requires 0 <= k < |ins| => LoadedInbound(ins[k]))
  }

  function StructureOf(cfg: Config): Structure {
    Structure(OtherOutbounds(cfg.outbounds), LoadedInbounds(cfg.inbounds), cfg.balancers, cfg.extra)
  }

  function UserOf(client: Client): VlessUser { VlessUser(client.id, client.email, client.flow, client.level) }

  /** vlessUsersOfConfig: later clients win over earlier ones with the same key. */
  function ClientUsers(tag: string, clients: seq<Client>, j: nat, acc: map<UserKey, VlessUser>): map<UserKey, VlessUser>
    requires j <= |clients|
    decreases |clients| - j
  {
    if j == |clients| then acc
    else ClientUsers(tag, clients, j + 1, acc[UserKey(tag, clients[j].email) := UserOf(clients[j])])
  }

  function InboundUsers(ins: seq<Inbound>, k: nat, acc: map<UserKey, VlessUser>): map<UserKey, VlessUser>
    requires k <= |ins|
    decreases |ins| - k
  {
    if k == |ins| then acc
    else InboundUsers(ins, k + 1, if ins[k].protocol == "vless" then ClientUsers(ins[k].tag, ins[k].clients, 0, acc)
                      else acc)
  }

  function VlessUsers(cfg: Config): map<UserKey, VlessUser> { InboundUsers(cfg.inbounds, 0, map[]) }

  method VlessUsersOfConfig(cfg: Config) returns (users: map<UserKey, VlessUser>)
    ensures users == VlessUsers(cfg)
  {
    users := map[];
    for k := 0 to |cfg.inbounds|
      invariant InboundUsers(cfg.inbounds, k, users) == VlessUsers(cfg)
    {
      var inbound := cfg.inbounds[k];
      if inbound.protocol == "vless" {
        ghost var before := users;
        for j := 0 to |inbound.clients|
          invariant ClientUsers(inbound.tag, inbound.clients, j, users) ==
                    ClientUsers(inbound.tag, inbound.clients, 0, before)
        {
          users := users[UserKey(inbound.tag, inbound.clients[j].email) := UserOf(inbound.clients[j])];
        }
      }
    }
  }

  // ----- What those users are -----

  /** The j-th client of the k-th inbound is a VLESS client under this key. */
  ghost predicate HasUser(cfg: Config, k: nat, j: nat, key: UserKey) {
    && k < |cfg.inbounds| && j < |cfg.inbounds[k].clients| && cfg.inbounds[k].protocol == "vless"
    && cfg.inbounds[k].tag == key.inbound && cfg.inbounds[k].clients[j].email == key.email
  }

  /** No later client has the key. */
  ghost predicate IsLastUser(cfg: Config, k: nat, j: nat, key: UserKey) {
    && HasUser(cfg, k, j, key)
    && forall a: nat, b: nat | HasUser(cfg, a, b, key) :: a < k || (a == k && b <= j)
  }

  lemma {:induction false} ClientUsersAre(tag: string, clients: seq<Client>, j: nat, acc: map<UserKey, VlessUser>,
                                          key: UserKey)
    returns (last: Option<nat>)
    requires j <= |clients|
    ensures var r := ClientUsers(tag, clients, j, acc);
            match last
            case Some(n) =>
              && key.inbound == tag && j <= n < |clients| && clients[n].email == key.email && key in r
              && r[key] == VlessUser(clients[n].id, clients[n].email, clients[n].flow, clients[n].level)
              && forall m | n < m < |clients| :: clients[m].email != key.email
            case None =>
              && (key in r <==> key in acc) && (key in r ==> r[key] == acc[key])
              && (key.inbound == tag ==> forall m | j <= m < |clients| :: clients[m].email != key.email)
    decreases |clients| - j
  {
    last := None;
    if j < |clients| {
      last := ClientUsersAre(tag, clients, j + 1, acc[UserKey(tag, clients[j].email) := UserOf(clients[j])], key);
      if last == None && key == UserKey(tag, clients[j].email) {
        last := Some(j);
      }
    }
  }

  lemma {:induction false} InboundUsersAre(cfg: Config, k: nat, acc: map<UserKey, VlessUser>, key: UserKey)
    returns (last: Option<(nat, nat)>)
    requires k <= |cfg.inbounds|
    ensures var r := InboundUsers(cfg.inbounds, k, acc);
            match last
            case Some(at) =>
              && k <= at.0 && HasUser(cfg, at.0, at.1, key) && key in r
              && (var c := cfg.inbounds[at.0].clients[at.1]; r[key] == VlessUser(c.id, c.email, c.flow, c.level))
              && forall a: nat, b: nat | HasUser(cfg, a, b, key) && k <= a :: a < at.0 || (a == at.0 && b <= at.1)
            case None =>
              && (key in r <==> key in acc) && (key in r ==> r[key] == acc[key])
              && forall a: nat, b: nat | k <= a :: !HasUser(cfg, a, b, key)
    decreases |cfg.inbounds| - k
  {
    last := None;
    if k < |cfg.inbounds| {
      var inbound := cfg.inbounds[k];
      var acc1 := if inbound.protocol == "vless" then ClientUsers(inbound.tag, inbound.clients, 0, acc) else acc;
      last := InboundUsersAre(cfg, k + 1, acc1, key);
      if last == None && inbound.protocol == "vless" {
        var here := ClientUsersAre(inbound.tag, inbound.clients, 0, acc, key);
        if here.Some? {
          last := Some((k, here.value));
        }
      }
    }
  }

  /** A start admits under a key the last VLESS client that has it, with its id, flow and
      level; and nobody under any other key. */
  lemma VlessUsersExactly(cfg: Config, key: UserKey)
    ensures key in VlessUsers(cfg) <==> exists k: nat, j: nat :: HasUser(cfg, k, j, key)
    ensures forall k: nat, j: nat | IsLastUser(cfg, k, j, key) ::
              var c := cfg.inbounds[k].clients[j];
              key in VlessUsers(cfg) && VlessUsers(cfg)[key] == VlessUser(c.id, c.email, c.flow, c.level)
    ensures key in VlessUsers(cfg) ==> exists k: nat, j: nat :: IsLastUser(cfg, k, j, key)
  {
    var last := InboundUsersAre(cfg, 0, map[], key);
    if last.Some? {
      assert IsLastUser(cfg, last.value.0, last.value.1, key);
      forall k: nat, j: nat | IsLastUser(cfg, k, j, key) ensures k == last.value.0 && j == last.value.1 {
      }
    }
  }

  /** Every user is keyed by its own email. */
  lemma {:induction false} ClientUsersKeyed(tag: string, clients: seq<Client>, j: nat, acc: map<UserKey, VlessUser>)
    requires j <= |clients| && forall k | k in acc :: acc[k].email == k.email
    ensures var r := ClientUsers(tag, clients, j, acc); forall k | k in r :: r[k].email == k.email
    decreases |clients| - j
  {
    if j < |clients| {
      ClientUsersKeyed(tag, clients, j + 1, acc[UserKey(tag, clients[j].email) := UserOf(clients[j])]);
    }
  }

  function SingleSocks(o: Outbound): Option<Socks> {
    if o.protocol == "socks" && |o.servers| == 1 && |o.servers[0].users| == 1 then
      var server := o.servers[0];
      Some(Socks(o.tag, server.address, server.port, server.users[0].user, server.users[0].pass))
    else None
  }

  function RunOf(s: Socks, extra: string): RunOutbound { RunOutbound(s.address, s.port, s.user, s.pass, extra) }

  /** The single-user SOCKS device outbounds a start registers. */
  function LoadedOutbounds(outs: seq<Outbound>): map<string, RunOutbound> {
    if outs == [] then map[]
    else
      var rest, o := LoadedOutbounds(outs[..|outs| - 1]), outs[|outs| - 1];
      if IsDeviceOutboundTag(o.tag) && SingleSocks(o).Some? then rest[o.tag := RunOf(SingleSocks(o).value, o.extra)]
           else rest
  }

  /** Xray's own loader does not know session tokens. */
  function LoadRule(r: Rule): RunRule {
    RunRule(r.outboundTag, r.Users(), r.Inbounds(), r.Sources(), r.Ports(), r.ruleTag, r.extra)
  }

  function LoadRules(rules: seq<Rule>): (r: seq<RunRule>)
    ensures |r| == |rules| && forall i | 0 <= i < |r| :: r[i] == LoadRule(rules[i])
  {
    seq(|rules|, i requires 0 <= i < |rules| => LoadRule(rules[i]))
  }

  function Load(runtime: Config): Proc {
    Proc(true, StructureOf(runtime), LoadedOutbounds(runtime.outbounds), LoadRules(runtime.rules), VlessUsers(runtime))
  }

  // ----- The gRPC client -----

  /** The rule tag that goes on the wire: a session rule always gets one. */
  function WireTag(l: LiveRule): string {
    if l.ruleTag == "" && l.token != "" then "session-" + l.token else l.ruleTag
  }

  function Texts(ports: seq<int>): (r: seq<string>)
    ensures |r| == |ports| && forall i | 0 <= i < |r| :: r[i] == Itoa(ports[i])
  {
    seq(|ports|, i requires 0 <= i < |ports| => Itoa(ports[i]))
  }

  function WireRule(l: LiveRule): RunRule {
    RunRule(l.outboundTag, l.user, l.inboundTag, l.source, Texts(l.ports), WireTag(l), "")
  }

  function WireRules(rules: seq<LiveRule>): (r: seq<RunRule>)
    ensures |r| == |rules| && forall i | 0 <= i < |r| :: r[i] == WireRule(rules[i])
  {
    seq(|rules|, i requires 0 <= i < |rules| => WireRule(rules[i]))
  }

  /** The client's own check of a rule before it sends the list. The host condition asks
      that the address is no IPv4 address at all, mapped or not. */
  predicate SendsSource(c: Cidr, withPort: bool) {
    match c
    case Host(a, canonical) => canonical && (withPort ==> !a.IsUnspecified() && !a.IsMulticast() && a.v6 && !a.Is4In6())
    case Network(_) => !withPort
    case Malformed(_) => false
  }

  predicate Sends(l: LiveRule) {
    && (forall c | c in l.source :: SendsSource(c, l.ports != []))
    && (l.token != "" ==> |l.token| == 64 && (forall i | 0 <= i < 64 :: IsLowerHex(l.token[i]))
                          && |l.source| == 1 && |l.ports| == 1
                          && (l.ruleTag == "" || l.ruleTag == "session-" + l.token))
    && (l.ports != [] ==> |l.source| == 1)
    && 0 !in l.ports
  }

  class XrayProcess {
    var running: bool
    var structure: Structure
    var outbounds: map<string, RunOutbound>
    var rules: seq<RunRule>
    var users: map<UserKey, VlessUser>
    ghost var calls: seq<Call>

    ghost function Now(): Proc
      reads this
    {
      Proc(running, structure, outbounds, rules, users)
    }

    constructor ()
      ensures !running && calls == []
    {
      running, structure, outbounds, rules, users := false, Structure([], [], 0, ""), map[], [], map[];
      calls := [];
    }

    method AddSOCKSOutbound(o: Socks) returns (ok: bool)
      modifies this
      ensures calls == old(calls) + [Call(AddOutbound(o), old(Now()), ok)]
      ensures Now() == if ok then old(Now()).(outbounds := old(outbounds)[o.tag := RunOf(o, "")]) else old(Now())
      ensures ok ==> old(running) && o.tag !in old(outbounds)
    {
      ghost var at := Now();
      ok := *;
      ok := ok && o.tag != "" && o.address != "" && o.port != 0 && running && o.tag !in outbounds;
      if ok {
        outbounds := outbounds[o.tag := RunOf(o, "")];
      }
      calls := calls + [Call(AddOutbound(o), at, ok)];
    }

    method RemoveOutbound(tag: string) returns (ok: bool)
      modifies this
      ensures calls == old(calls) + [Call(Rpc.RemoveOutbound(tag), old(Now()), ok)]
      ensures Now() == if ok then old(Now()).(outbounds := old(outbounds) - {tag}) else old(Now())
      ensures ok ==> old(running)
    {
      ghost var at := Now();
      ok := *;
      ok := ok && tag != "" && running;
      if ok {
        outbounds := outbounds - {tag};
      }
      calls := calls + [Call(Rpc.RemoveOutbound(tag), at, ok)];
    }

    method ReplaceRoutingRules(list: seq<LiveRule>) returns (ok: bool)
      modifies this
      ensures calls == old(calls) + [Call(ReplaceRules(list), old(Now()), ok)]
      ensures Now() == if ok then old(Now()).(rules := WireRules(list)) else old(Now())
      ensures ok ==> old(running) && forall l | l in list :: Sends(l)
    {
      ghost var at := Now();
      var valid := true;
      for i := 0 to |list|
        invariant valid <==> forall j | 0 <= j < i :: Sends(list[j])
      {
        valid := valid && Sends(list[i]);
      }
      ok := *;
      ok := ok && valid && running;
      if ok {
        rules := WireRules(list);
      }
      calls := calls + [Call(ReplaceRules(list), at, ok)];
    }

    method AddVLESSUser(inbound: string, u: VlessUser) returns (ok: bool)
      modifies this
      ensures calls == old(calls) + [Call(AddUser(inbound, u), old(Now()), ok)]
      ensures Now() == if ok then old(Now()).(users := old(users)[UserKey(inbound, u.email) := u]) else old(Now())
      ensures ok ==> old(running) && UserKey(inbound, u.email) !in old(users)
    {
      ghost var at := Now();
      ok := *;
      ok := ok && inbound != "" && u.uuid != "" && u.email != "" && running && UserKey(inbound, u.email) !in users;
      if ok {
        users := users[UserKey(inbound, u.email) := u];
      }
      calls := calls + [Call(AddUser(inbound, u), at, ok)];
    }

    method RemoveVLESSUser(key: UserKey) returns (ok: bool)
      modifies this
      ensures calls == old(calls) + [Call(RemoveUser(key), old(Now()), ok)]
      ensures Now() == if ok then old(Now()).(users := old(users) - {key}) else old(Now())
      ensures ok ==> old(running)
    {
      ghost var at := Now();
      ok := *;
      ok := ok && key.inbound != "" && key.email != "" && running;
      if ok {
        users := users - {key};
      }
      calls := calls + [Call(RemoveUser(key), at, ok)];
    }
  }
}
