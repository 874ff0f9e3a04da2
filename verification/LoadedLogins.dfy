/** Every device outbound that a start loads, or a live edit leaves running, logs in at the
    local egress as its device, with the password the configuration was materialized with. */
module LoadedLogins {
  import opened DeviceConfig
  import opened DeviceCheck
  import opened Router
  import opened Topology
  import opened XrayProcess
  import opened LiveTopology
  import opened LiveEqualsRestart
  import DeviceEgress
  import EgressGuarantees

  lemma {:induction false} LoadedAt(outs: seq<Outbound>, k: nat)
    requires k < |outs| && IsDeviceOutboundTag(outs[k].tag) && SingleSocks(outs[k]).Some?
    requires forall j | k < j < |outs| :: outs[j].tag != outs[k].tag
    ensures outs[k].tag in LoadedOutbounds(outs)
    ensures LoadedOutbounds(outs)[outs[k].tag] == RunOf(SingleSocks(outs[k]).value, outs[k].extra)
  {
    if k < |outs| - 1 {
      LoadedAt(outs[..|outs| - 1], k);
    }
  }

  lemma {:induction false} LoadedFrom(outs: seq<Outbound>, tag: string) returns (k: nat)
    requires tag in LoadedOutbounds(outs)
    ensures k < |outs| && outs[k].tag == tag && IsDeviceOutboundTag(tag)
  {
    k := |outs| - 1;
    if outs[k].tag != tag || !IsDeviceOutboundTag(tag) {
      k := LoadedFrom(outs[..|outs| - 1], tag);
      assert outs[k] == outs[..|outs| - 1][k];
    }
  }

  /** The running outbound logs in at the local egress with this user name and password. */
  ghost predicate LogsIn(o: RunOutbound, user: string, password: string) {
    o.address == LISTEN_IP && o.port == SOCKS_PORT && o.user == user && o.pass == password
  }

  ghost predicate AllLogIn(run: map<string, RunOutbound>, devices: map<string, Device>,
                           passwords: map<string, string>) {
    run.Keys == devices.Keys == passwords.Keys && forall t | t in run :: LogsIn(run[t], devices[t].id, passwords[t])
  }

  /** One declared device, in what a start loads. */
  lemma LoadedDevice(c: Config, passwords: map<string, string>, tag: string)
    requires Parse(c).Ok? && tag in Parse(c).value.devices && tag in passwords && |passwords[tag]| == 64
    ensures var l := LoadedOutbounds(DeviceEgress.Materialize(c, passwords).outbounds);
            tag in l && LogsIn(l[tag], Parse(c).value.devices[tag].id, passwords[tag])
  {
    EgressGuarantees.MaterializedDevice(c, passwords, tag);
    DeviceEgress.ParsedIsDeclared(c);
    DevicesAreDeclared(c, tag);
    DeviceTagParts(tag);
    var outs, k := DeviceEgress.Materialize(c, passwords).outbounds, Parse(c).value.devices[tag].index;
    forall j | 0 <= j < |outs| && j != k ensures outs[j].tag != tag {
      assert outs[j] == DeviceEgress.MaterializedOutbound(c.outbounds[j], passwords);
      assert c.outbounds[j].tag != tag;
    }
    LoadedAt(outs, k);
  }

  /** A start loads one outbound for every declared device, and no other device outbound. */
  lemma StartLogsIn(c: Config, passwords: map<string, string>)
    requires Parse(c).Ok? && passwords.Keys == Parse(c).value.devices.Keys
             && forall t | t in passwords :: |passwords[t]| == 64
    ensures AllLogIn(LoadedOutbounds(DeviceEgress.Materialize(c, passwords).outbounds), Parse(c).value.devices,
                     passwords)
  {
    var outs := DeviceEgress.Materialize(c, passwords).outbounds;
    forall t | t in passwords
      ensures t in LoadedOutbounds(outs) && LogsIn(LoadedOutbounds(outs)[t], Parse(c).value.devices[t].id, passwords[t])
    {
      LoadedDevice(c, passwords, t);
    }
    forall t | t in LoadedOutbounds(outs) ensures t in passwords {
      var k := LoadedFrom(outs, t);
      assert outs[k] == DeviceEgress.MaterializedOutbound(c.outbounds[k], passwords);
      DevicesAreOutbounds(c, k);
    }
  }

  /** So does every process that runs the topology of that configuration after live edits. */
  lemma TrackingLogsIn(p: Proc, c: Config, passwords: map<string, string>)
    requires Parse(c).Ok? && passwords.Keys == Parse(c).value.devices.Keys
             && forall t | t in passwords :: |passwords[t]| == 64
    requires var runtime := DeviceEgress.Materialize(c, passwords);
             TopologyOf(runtime).Some? && Tracks(p, TopologyOf(runtime).value)
    ensures AllLogIn(p.outbounds, Parse(c).value.devices, passwords)
  {
    var outs := DeviceEgress.Materialize(c, passwords).outbounds;
    StartLogsIn(c, passwords);
    LoadedTracks(outs);
    var l, live := LoadedOutbounds(outs), LiveOutbounds(outs).value;
    assert p.outbounds.Keys == live.Keys == l.Keys;
    forall t | t in p.outbounds ensures LogsIn(p.outbounds[t], Parse(c).value.devices[t].id, passwords[t]) {
      assert p.outbounds[t].(extra := "") == RunOf(live[t], "") == l[t].(extra := "");
    }
  }
}
