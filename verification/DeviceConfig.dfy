/** A decoded Xray configuration, as the node agent reads it: the fields the agent
    looks at are typed, everything else in an object is one opaque `extra` text
    ("" when the object has no further key). */
module DeviceConfig {
  import opened Base
  import opened Text

  const OUTBOUND_PREFIX: string := "device-egress-"
  const PLACEHOLDER: string := "materialize-at-node"
  const LISTEN_IP: string := "127.0.0.1"
  const SOCKS_PORT: int := 10086

  /** An IP address by value; `v6` tells the family. */
  datatype Addr = Addr(bits: nat, v6: bool) {
    predicate Is4In6() { v6 && bits / 0x1_0000_0000 == 0xffff }

    predicate IsUnspecified() { bits == 0 }

    predicate IsMulticast() {
      if !v6 then bits / 0x1000_0000 == 0xe
      else if Is4In6() then bits % 0x1_0000_0000 / 0x1000_0000 == 0xe
      else bits / 0x1_00000000_00000000_00000000_000000 == 0xff
    }

    /** Global, loopback or link-local unicast. */
    predicate IsUnicast() { !IsUnspecified() && !IsMulticast() && (v6 || bits != 0xffff_ffff) }
  }

  /** One element of a rule's "source" list. A host is a prefix whose length is the
      whole address; `canonical` says that it is spelled as net.IPNet prints it. A
      network is a shorter prefix in canonical spelling; all else is malformed. */
  datatype Cidr =
    | Host(addr: Addr, canonical: bool)
    | Network(text: string)
    | Malformed(text: string)

  datatype SocksUser = SocksUser(user: string, pass: string)

  datatype SocksServer = SocksServer(address: string, port: int, users: seq<SocksUser>)

  datatype Outbound = Outbound(tag: string, protocol: string, servers: seq<SocksServer>, extra: string)

  datatype Client = Client(id: string, password: string, email: string, flow: string, level: nat)

  datatype Inbound = Inbound(tag: string, protocol: string, clients: seq<Client>, extra: string)

  /** A routing rule. An option is None when the key is absent, which the checks
      tell apart from an empty value. */
  datatype Rule = Rule(
    kind: string,
    user: Option<seq<string>>,
    inboundTag: Option<seq<string>>,
    outboundTag: string,
    ruleTag: string,
    source: Option<seq<Cidr>>,
    sourcePort: Option<seq<string>>,
    sessionToken: Option<string>,
    extra: string)
  {
    function Users(): seq<string> { user.GetOr([]) }

    function Inbounds(): seq<string> { inboundTag.GetOr([]) }

    function Sources(): seq<Cidr> { source.GetOr([]) }

    function Ports(): seq<string> { sourcePort.GetOr([]) }

    function Token(): string { sessionToken.GetOr("") }

    /** The user and inbound conditions alone admit this user on this inbound. */
    predicate Concerns(email: string, inbound: string) {
      && (Users() == [] || email in Users())
      && (Inbounds() == [] || inbound in Inbounds())
    }
  }

  /** The "proxima_device_rates" member: absent, undecodable or null, or a map whose
      entries may themselves be null. */
  datatype RateTable = NoRates | BadRates | Rates(entries: map<string, Option<int>>)

  datatype Config = Config(
    outbounds: seq<Outbound>,
    inbounds: seq<Inbound>,
    rules: seq<Rule>,
    balancers: nat,
    rates: RateTable,
    extra: string)

  /** The identity string collected for rollback authorization. */
  datatype Identity = Identity(protocol: string, inbound: string, secret: string, email: string)

  function IdentityOf(inbound: Inbound, client: Client): Identity {
    Identity(inbound.protocol, inbound.tag, if client.id == "" then client.password else client.id, client.email)
  }

  function DeviceUser(id: string): string { id + "@proxima" }

  /** What a device outbound tag names: a device, and a source key ("" when the tag
      is not source-qualified). */
  datatype DeviceTag = DeviceTag(id: string, key: string)

  predicate IsDeclared(tag: string) { OUTBOUND_PREFIX <= tag }

  function ParseLocalDeviceTag(tag: string): (r: Option<DeviceTag>)
    ensures r.Some? ==> IsDeclared(tag) && 0 < |r.value.id| <= 255
  {
    if !IsDeclared(tag) then None
    else
      var c := Cut(tag[|OUTBOUND_PREFIX|..], '~');
      if c.before == "" || |c.before| > 255 then None
      else if c.found
              && (|c.after| < 16 || |c.after| > 64 || |c.after| % 2 != 0
                  || exists i | 0 <= i < |c.after| :: !IsHex(c.after[i])) then None
      else Some(DeviceTag(c.before, c.after))
  }

  /** A valid tag is exactly its parts put together again, and it is source-qualified
      exactly when it contains a tilde. */
  lemma DeviceTagParts(tag: string)
    requires ParseLocalDeviceTag(tag).Some?
    ensures var t := ParseLocalDeviceTag(tag).value;
            && '~' !in t.id && tag == OUTBOUND_PREFIX + t.id + (if t.key == "" then "" else "~" + t.key)
            && ('~' in tag <==> t.key != "")
  {
    var t := ParseLocalDeviceTag(tag).value;
    var rest := tag[|OUTBOUND_PREFIX|..];
    assert tag == OUTBOUND_PREFIX + rest;
    assert '~' !in OUTBOUND_PREFIX;
    if t.key != "" {
      assert tag[|OUTBOUND_PREFIX| + |t.id|] == '~';
    }
  }

  /** A stock VLESS user as the handler API knows it. */
  datatype UserKey = UserKey(inbound: string, email: string)

  datatype VlessUser = VlessUser(uuid: string, email: string, flow: string, level: nat)

  /** A tag is valid if and only if it is the prefix, an id of 1 to 255 bytes without a tilde,
      and perhaps a tilde and an even number of 16 to 64 hex digits. */
  lemma TagExactly(tag: string, id: string, key: string)
    ensures ParseLocalDeviceTag(tag) == Some(DeviceTag(id, key)) <==>
            && 1 <= |id| <= 255 && '~' !in id
            && if key == "" then tag == "device-egress-" + id
               else && tag == "device-egress-" + id + "~" + key
                    && 16 <= |key| <= 64 && |key| % 2 == 0 && forall i | 0 <= i < |key| :: IsHex(key[i])
  {
    if ParseLocalDeviceTag(tag) == Some(DeviceTag(id, key)) {
      DeviceTagParts(tag);
    } else if 1 <= |id| <= 255 && '~' !in id {
      if key == "" && tag == "device-egress-" + id {
        assert tag[|OUTBOUND_PREFIX|..] == id;
        CutAbsent(id, '~');
      } else if key != "" && tag == "device-egress-" + id + "~" + key {
        assert tag[|OUTBOUND_PREFIX|..] == id + ['~'] + key;
        CutUnique(id, '~', key);
      }
    }
  }

  /** The unicast addresses: for IPv4 all but 0.0.0.0, 224.0.0.0 to 239.255.255.255 and
      255.255.255.255; for IPv6 all but ::, ff00::/8 and the mapped multicast addresses. */
  lemma UnicastExactly(a: Addr)
    requires a.bits < if a.v6 then 0x1_00000000_00000000_00000000_00000000 else 0x1_0000_0000
    ensures !a.v6 ==> (a.IsUnicast() <==>
                       a.bits != 0 && a.bits != 0xffff_ffff && !(0xe000_0000 <= a.bits <= 0xefff_ffff))
    ensures a.v6 ==>
              (a.IsUnicast() <==>
                 && a.bits != 0 && a.bits < 0xff000000_00000000_00000000_00000000
                 && !(0xffff_e000_0000 <= a.bits <= 0xffff_efff_ffff))
  {
  }
}
