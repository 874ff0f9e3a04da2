/** What the static check accepts, and what it finds, written out from the configuration: the
    outbounds it declares, the rules that apply to each client in order, and the sources they
    claim. Nothing here names the check's own steps. */
module Acceptance {
  import opened Base
  import opened Text
  import opened DeviceConfig
  import opened DeviceCheck

  // ----- What the configuration says -----

  /** A well-formed declaration of a device outbound. */
  ghost predicate IsDeclaration(o: Outbound) {
    && ParseLocalDeviceTag(o.tag).Some? && o.protocol == "socks"
    && o.servers ==
       [SocksServer("127.0.0.1", 10086, [SocksUser(ParseLocalDeviceTag(o.tag).value.id, "materialize-at-node")])]
  }

  /** Every outbound with the device prefix is one, and no tag is declared twice. */
  ghost predicate DeclaresWell(outs: seq<Outbound>) {
    && (forall n | 0 <= n < |outs| && OUTBOUND_PREFIX <= outs[n].tag :: IsDeclaration(outs[n]))
    && (forall m, n | 0 <= m < n < |outs| && OUTBOUND_PREFIX <= outs[m].tag :: outs[m].tag != outs[n].tag)
  }

  /** The tags declared for a device. */
  ghost function TagsOf(cfg: Config, id: string): set<string> {
    set o | o in cfg.outbounds && ParseLocalDeviceTag(o.tag).Some? && ParseLocalDeviceTag(o.tag).value.id == id :: o.tag
  }

  /** Some of them name a source. */
  ghost predicate Qualified(cfg: Config, id: string) { exists t | t in TagsOf(cfg, id) :: '~' in t }

  ghost predicate Drops(cfg: Config, tag: string) {
    exists o | o in cfg.outbounds :: o.tag == tag && o.protocol == "blackhole"
  }

  /** The rule's user and inbound lists, if any, have the client in them. */
  ghost predicate Applies(rule: Rule, email: string, inbound: string) {
    && (rule.user.Some? && rule.user.value != [] ==> email in rule.user.value)
    && (rule.inboundTag.Some? && rule.inboundTag.value != [] ==> inbound in rule.inboundTag.value)
  }

  /** The rule says nothing beyond its user, inbound and outbound. */
  ghost predicate Unconditional(rule: Rule) {
    rule == Rule("field", rule.user, rule.inboundTag, rule.outboundTag, rule.ruleTag, None, None, None, "")
  }

  ghost predicate IsPlainDeny(cfg: Config, rule: Rule) { Unconditional(rule) && Drops(cfg, rule.outboundTag) }

  /** A rule for this client alone, to an outbound of its own. */
  ghost predicate IsOwn(cfg: Config, rule: Rule, client: Client) {
    && rule.kind == "field" && rule.extra == "" && rule.user == Some([client.email])
    && rule.outboundTag in TagsOf(cfg, client.id)
  }

  ghost predicate IsDirectRoute(cfg: Config, rule: Rule, client: Client) {
    IsOwn(cfg, rule, client) && rule.source == None && rule.sourcePort == None && rule.Token() == ""
  }

  ghost predicate IsSourceRoute(cfg: Config, rule: Rule, client: Client) {
    && IsOwn(cfg, rule, client) && '~' in rule.outboundTag
    && rule.source.Some? && |rule.source.value| == 1
    && rule.source.value[0].Host? && !rule.source.value[0].addr.Is4In6()
    && (rule.sourcePort.Some? ==> |rule.sourcePort.value| == 1 && ExactPort(rule.sourcePort.value[0]).Some?)
    && (rule.Token() != "" ==> IsSession(rule))
  }

  /** The session token is the tag's source key, 32 bytes in lower-case hex. */
  ghost predicate IsSession(rule: Rule) {
    && rule.sourcePort.Some? && IsSessionToken(rule.Token())
    && (rule.ruleTag == "" || rule.ruleTag == "session-" + rule.Token())
    && ParseLocalDeviceTag(rule.outboundTag).Some?
    && ParseLocalDeviceTag(rule.outboundTag).value.key == rule.Token()
  }

  /** A source that a rule binds to an outbound, on one port or, for 0, on all. */
  datatype Claim = Claim(tag: string, addr: Addr, port: int, token: string)

  ghost function ClaimAt(cfg: Config, rule: Rule, client: Client): Claim
    requires IsSourceRoute(cfg, rule, client)
  {
    Claim(rule.outboundTag, rule.source.value[0].addr,
          if rule.sourcePort.Some? then ExactPort(rule.sourcePort.value[0]).value else 0, rule.Token())
  }

  /** What the client's source routes claim, in order, up to its first plain deny. */
  ghost function ClaimsOn(cfg: Config, client: Client, inbound: string, i: nat): seq<Claim>
    requires i <= |cfg.rules|
    decreases |cfg.rules| - i
  {
    if i == |cfg.rules| then []
    else
      var rule, rest := cfg.rules[i], ClaimsOn(cfg, client, inbound, i + 1);
      if !Applies(rule, client.email, inbound) then rest
      else if IsPlainDeny(cfg, rule) then []
      else if IsSourceRoute(cfg, rule, client) then [ClaimAt(cfg, rule, client)] + rest
      else rest
  }

  /** The rules that apply to the client from i on are source routes of its own, up to a plain
      deny. */
  ghost predicate EndsInDeny(cfg: Config, client: Client, inbound: string, i: nat) {
    exists e: nat | i <= e < |cfg.rules| :: IsEnd(cfg, client, inbound, i, e)
  }

  ghost predicate IsEnd(cfg: Config, client: Client, inbound: string, i: nat, e: nat)
    requires e < |cfg.rules|
  {
    && Applies(cfg.rules[e], client.email, inbound) && IsPlainDeny(cfg, cfg.rules[e])
    && forall h | i <= h < e && Applies(cfg.rules[h], client.email, inbound) :: IsSourceRoute(cfg, cfg.rules[h], client)
  }

  /** No connection can meet two of the claims. */
  ghost predicate Apart(cs: seq<Claim>) {
    forall m, n | 0 <= m < n < |cs| ::
      cs[m].addr == cs[n].addr ==> cs[m].port != 0 && cs[n].port != 0 && cs[m].port != cs[n].port
  }

  /** A tag is bound to one address, and once to a port, to no other port later. */
  ghost predicate Consistent(cs: seq<Claim>) {
    forall m, n | 0 <= m < n < |cs| && cs[m].tag == cs[n].tag ::
      cs[m].addr == cs[n].addr && (cs[m].port != 0 ==> cs[n].port == cs[m].port)
  }

  ghost function ClaimedTags(cs: seq<Claim>): set<string> { set c | c in cs :: c.tag }

  /** Rule i is the first from `from` on that applies. */
  ghost predicate IsFirst(cfg: Config, client: Client, inbound: string, from: nat, i: nat) {
    && from <= i < |cfg.rules| && Applies(cfg.rules[i], client.email, inbound)
    && forall h | from <= h < i :: !Applies(cfg.rules[h], client.email, inbound)
  }

  ghost predicate IsUserDeny(cfg: Config, rule: Rule, client: Client) {
    IsPlainDeny(cfg, rule) && rule.user == Some([client.email]) && rule.inboundTag == None
  }

  /** Rule i is the client's first, and denies it. */
  ghost predicate IsDenied(cfg: Config, client: Client, inbound: string, from: nat, i: nat) {
    IsFirst(cfg, client, inbound, from, i) && IsUserDeny(cfg, cfg.rules[i], client)
  }

  /** Rule i is the client's first, and routes it without conditions. */
  ghost predicate GoesDirect(cfg: Config, client: Client, inbound: string, from: nat, i: nat) {
    IsFirst(cfg, client, inbound, from, i) && IsDirectRoute(cfg, cfg.rules[i], client)
  }

  /** A rule for all users of the inbound. */
  ghost predicate IsCatchAll(rule: Rule, inbound: string) {
    (rule.user.Some? ==> rule.user.value == []) && rule.inboundTag.Some? && inbound in rule.inboundTag.value
  }

  /** The first such rule from i on is a plain deny for the inbound alone. */
  ghost predicate HasFallback(cfg: Config, inbound: string, i: nat) {
    exists f: nat | i <= f < |cfg.rules| :: IsFallback(cfg, inbound, i, f)
  }

  ghost predicate IsFallback(cfg: Config, inbound: string, i: nat, f: nat)
    requires f < |cfg.rules|
  {
    && IsPlainDeny(cfg, cfg.rules[f]) && cfg.rules[f].user == None && cfg.rules[f].inboundTag == Some([inbound])
    && forall h | i <= h < f :: !IsCatchAll(cfg.rules[h], inbound)
  }

  /** The device's egress controls who uses the inbound: it has a speed tier, devices are
      declared, or a rule that names it drops. */
  ghost predicate IsControlled(cfg: Config, inbound: Inbound) {
    || ParseLimitTag(inbound.tag).Some?
    || (exists o | o in cfg.outbounds :: OUTBOUND_PREFIX <= o.tag)
    || (exists r | r in cfg.rules ::
         r.inboundTag.Some? && inbound.tag in r.inboundTag.value
         && Drops(cfg, r.outboundTag))
  }

  ghost predicate IsNamed(client: Client) { client.email == client.id + "@proxima" }

  /** A VLESS client without an outbound: denied outright, which a controlled inbound needs. */
  ghost predicate UnservedOk(cfg: Config, inbound: Inbound, client: Client) {
    var named := client.id != "" && IsNamed(client);
    && (forall i: nat | named && IsDenied(cfg, client, inbound.tag, 0, i) :: HasFallback(cfg, inbound.tag, i + 1))
    && (IsControlled(cfg, inbound) ==> named && exists i: nat :: IsDenied(cfg, client, inbound.tag, 0, i))
  }

  /** The client's first rule is its own, without conditions, to its only outbound. */
  ghost predicate DirectOk(cfg: Config, inbound: Inbound, client: Client) {
    exists i: nat ::
      GoesDirect(cfg, client, inbound.tag, 0, i) && TagsOf(cfg, client.id) == {cfg.rules[i].outboundTag}
  }

  /** Its rules claim disjoint sources for each of its outbounds, and deny the rest. */
  ghost predicate SourcesOk(cfg: Config, inbound: Inbound, client: Client) {
    var cs := ClaimsOn(cfg, client, inbound.tag, 0);
    EndsInDeny(cfg, client, inbound.tag, 0) && Apart(cs) && TagsOf(cfg, client.id) <= ClaimedTags(cs)
  }

  ghost predicate ClientOk(cfg: Config, inbound: Inbound, client: Client) {
    if inbound.protocol != "vless" then ParseLimitTag(inbound.tag) == None
    else if TagsOf(cfg, client.id) == {} then UnservedOk(cfg, inbound, client)
    else IsNamed(client) && if Qualified(cfg, client.id) then SourcesOk(cfg, inbound, client)
         else DirectOk(cfg, inbound, client)
  }

  ghost function ClientClaims(cfg: Config, inbound: Inbound, client: Client): seq<Claim> {
    if inbound.protocol == "vless" && Qualified(cfg, client.id) then ClaimsOn(cfg, client, inbound.tag, 0) else []
  }

  /** What the first k inbounds claim, and the first j clients of the next. */
  ghost function ClaimsBefore(cfg: Config, k: nat, j: nat): seq<Claim>
    requires k <= |cfg.inbounds| && (j == 0 || (k < |cfg.inbounds| && j <= |cfg.inbounds[k].clients|))
    decreases k, j
  {
    if j > 0 then ClaimsBefore(cfg, k, j - 1) + ClientClaims(cfg, cfg.inbounds[k], cfg.inbounds[k].clients[j - 1])
    else if k > 0 then ClaimsBefore(cfg, k - 1, |cfg.inbounds[k - 1].clients|)
    else []
  }

  /** The configuration lists this device as a VLESS client there, and declares it. */
  ghost predicate Serves(cfg: Config, k: nat, j: nat, id: string) {
    && k < |cfg.inbounds| && j < |cfg.inbounds[k].clients|
    && cfg.inbounds[k].protocol == "vless" && cfg.inbounds[k].clients[j].id == id && TagsOf(cfg, id) != {}
  }

  ghost predicate IsServed(cfg: Config, id: string) { exists k: nat, j: nat :: Serves(cfg, k, j, id) }

  /** Every declared outbound has a client. */
  ghost predicate AllServed(cfg: Config) {
    forall o | o in cfg.outbounds && OUTBOUND_PREFIX <= o.tag && ParseLocalDeviceTag(o.tag).Some? ::
      IsServed(cfg, ParseLocalDeviceTag(o.tag).value.id)
  }

  /** The rates are absent, or there is one, not negative, for every device served. */
  ghost predicate RatesOk(cfg: Config) {
    match cfg.rates
    case NoRates => true
    case BadRates => false
    case Rates(entries) =>
      forall id | IsServed(cfg, id) :: id in entries && entries[id].Some? && entries[id].value >= 0
  }

  /** What parseDeviceConfig accepts. */
  ghost predicate Acceptable(cfg: Config) {
    && DeclaresWell(cfg.outbounds)
    && (forall k: nat, j: nat | k < |cfg.inbounds| && j < |cfg.inbounds[k].clients| ::
          ClientOk(cfg, cfg.inbounds[k], cfg.inbounds[k].clients[j]))
    && Consistent(ClaimsBefore(cfg, |cfg.inbounds|, 0))
    && AllServed(cfg)
    && RatesOk(cfg)
  }

  // ----- What it finds -----

  /** Some client of some inbound, of whatever protocol, has this identity: its id or else its
      password, and its email. */
  ghost predicate Lists(cfg: Config, protocol: string, inbound: string, secret: string, email: string) {
    exists k: nat, j: nat :: ListsAt(cfg, k, j, protocol, inbound, secret, email)
  }

  ghost predicate ListsAt(cfg: Config, k: nat, j: nat, protocol: string, inbound: string, secret: string,
                          email: string) {
    && k < |cfg.inbounds| && j < |cfg.inbounds[k].clients|
    && cfg.inbounds[k].protocol == protocol && cfg.inbounds[k].tag == inbound
    && cfg.inbounds[k].clients[j].email == email
    && secret == (if cfg.inbounds[k].clients[j].id != "" then cfg.inbounds[k].clients[j].id
                  else cfg.inbounds[k].clients[j].password)
  }

  /** r is the device's rate: its entry in the table, or without one the least tier of the
      inbounds that list it, 0 when none has one. */
  ghost predicate IsRate(cfg: Config, id: string, r: int) {
    match cfg.rates
    case Rates(entries) => id in entries && entries[id] == Some(r)
    case _ =>
      && r >= 0
      && (r > 0 ==> exists k: nat, j: nat :: Serves(cfg, k, j, id) && ParseLimitTag(cfg.inbounds[k].tag) == Some(r))
      && forall k: nat, j: nat | Serves(cfg, k, j, id) && ParseLimitTag(cfg.inbounds[k].tag).Some? ::
           0 < r <= ParseLimitTag(cfg.inbounds[k].tag).value
  }

  ghost function AllClaims(cfg: Config): seq<Claim> { ClaimsBefore(cfg, |cfg.inbounds|, 0) }
}
