/** Concrete runs of the node: a switch that completes live, one that completes live and
    leaves what a restart would not, and a node that is blocked and still runs Xray. */
module AgentExamples {
  import opened Base
  import opened DeviceConfig
  import opened DeviceCheck
  import opened XrayProcess
  import opened LiveTopology
  import opened UserSync
  import opened Agent
  import opened AgentSafety
  import DeviceEgress

  // ----- A switch that completes live -----

  /** One VLESS inbound, without device egress, with these clients. */
  function Plain(clients: seq<Client>): Config {
    Config([], [Inbound("in", "vless", clients, "")], [], 0, NoRates, "")
  }

  lemma PlainIsAccepted(clients: seq<Client>)
    requires clients == [] || clients == [Client("u", "", "u@proxima", "", 0)]
    ensures Parse(Plain(clients)).Ok?
    ensures var p := Parse(Plain(clients)).value;
            p == Parsed(map[], set c | c in clients :: IdentityOf(Plain(clients).inbounds[0], c),
                        map[], map[], map[], map[])
    ensures TopologyOf(Plain(clients)) == Some(LiveTopo(map[], [])) && CleanConfig(Plain(clients))
    ensures DeviceEgress.Materialize(Plain(clients), map[]) == Plain(clients)
  {
    var cfg := Plain(clients);
    var inbound := cfg.inbounds[0];
    var env := Env(cfg, map[], {});
    assert DenyTags(cfg.outbounds) == {};
    assert !Limited(inbound) by {
      assert inbound.tag[0] == 'i';
    }
    assert LiveForms(cfg.rules) == [];
    if clients == [] {
      assert ClientsFrom(env, inbound, 0, EMPTY_ACC) == Ok(EMPTY_ACC);
      assert InboundsFrom(env, 0, EMPTY_ACC) == InboundsFrom(env, 1, EMPTY_ACC) == Ok(EMPTY_ACC);
    } else {
      PlainClient(clients);
    }
  }

  lemma PlainClient(clients: seq<Client>)
    requires clients == [Client("u", "", "u@proxima", "", 0)]
    ensures var cfg, env := Plain(clients), Env(Plain(clients), map[], {});
            InboundsFrom(env, 0, EMPTY_ACC) == Ok(EMPTY_ACC.(identities := {IdentityOf(cfg.inbounds[0], clients[0])}))
  {
    var cfg, env := Plain(clients), Env(Plain(clients), map[], {});
    var inbound, acc := cfg.inbounds[0], EMPTY_ACC.(identities := {IdentityOf(cfg.inbounds[0], clients[0])});
    assert inbound.tag[0] == 'i' && !Limited(inbound);
    assert ExplicitlyDenied(cfg.rules, inbound.tag, clients[0], {}) == Ok(false);
    assert EMPTY_ACC.identities + {IdentityOf(inbound, clients[0])} == acc.identities;
    assert CheckClient(env, inbound, clients[0], EMPTY_ACC) == Ok(acc);
    assert ClientsFrom(env, inbound, 0, EMPTY_ACC) == ClientsFrom(env, inbound, 1, acc) == Ok(acc);
    assert InboundsFrom(env, 0, EMPTY_ACC) == InboundsFrom(env, 1, acc) == Ok(acc);
  }

  /** The node that serves one client after an ordinary start. */
  function Serving(clients: seq<Client>): World {
    var c := Plain(clients);
    World(false, c, "structure", "before", VlessUsers(c), 0, true, Some(c), c, None, c, false, Load(c),
          DeviceEgress.Egress(map[], map[], Some(set k | k in clients :: IdentityOf(c.inbounds[0], k)), {}, map[], 0,
                              Some(map[]), map[]))
  }

  lemma ServingIsSafe(clients: seq<Client>)
    requires clients == [] || clients == [Client("u", "", "u@proxima", "", 0)]
    ensures Inv(Serving(clients))
  {
    PlainIsAccepted(clients);
    var w, passwords: map<string, string> := Serving(clients), map[];
    assert w.runtime == DeviceEgress.Materialize(w.config, passwords);
  }

  lemma PlainAdmitted(was: seq<Client>)
    requires was == [Client("u", "", "u@proxima", "", 0)]
    ensures DeviceEgress.TransformStep(Serving(was).egress, Plain([]), true, map[], DeviceEgress.Installed(Plain([])),
                                       Serving([]).egress)
  {
    PlainIsAccepted([]);
    var e, p := Serving(was).egress, Parse(Plain([])).value;
    assert p.identities == {};
    var q := DeviceEgress.Pruned(e, p).(installed := DeviceEgress.Kept(e, p));
    assert q == Serving([]).egress;
    assert DeviceEgress.DrawnPasswords(q.passwords, map[], {}) == map[];
    assert DeviceEgress.Generated(q, p, map[], {}) == q;
    assert DeviceEgress.Credentialed(p, q.passwords, q.tokens) == map[];
  }

  function Emptied(w: World): World {
    w.(shapingOK := false, handed := Plain([]), egress := Serving([]).egress, backup := Some(w.config),
       canonical := Some(Plain([])), runtime := Plain([]))
  }

  lemma WriteHappens(was: seq<Client>)
    requires was == [Client("u", "", "u@proxima", "", 0)]
    ensures Wrote(Serving(was).(shapingOK := false), Plain([]),
                  Transformed(true, map[], DeviceEgress.Installed(Plain([])), Done),
                  Emptied(Serving(was)))
  {
    PlainAdmitted(was);
  }

  lemma EditHappens(was: seq<Client>, d: Digest)
    requires was == [Client("u", "", "u@proxima", "", 0)] && d == Digest(Plain([]), "structure", "after", [])
    ensures var w, mid := Serving(was), Emptied(Serving(was));
            Incremental(w, d, Plain([]))
            && TriedLive(w, mid, d, Plain([]), true, true,
                         mid.(proc := mid.proc.(users := map[]), users := map[], usersHash := "after"))
  {
    PlainIsAccepted(was);
    PlainIsAccepted([]);
  }

  /** The result above is about something: the last client of a served configuration is
      removed by a complete live switch. */
  lemma LiveSwitchHappens() returns (w: World, d: Digest, c: Config, h: History, v: World)
    ensures Inv(w) && w.proc == Load(w.runtime) && CleanConfig(c) && Wanted(d) == VlessUsers(c)
    ensures Switched(w, d, c, true, h, v) && IsDone(h.write) && h.live && v.proc.users != w.proc.users
  {
    var was := [Client("u", "", "u@proxima", "", 0)];
    w, c := Serving(was), Plain([]);
    d := Digest(c, "structure", "after", []);
    ServingIsSafe(was);
    PlainIsAccepted([]);
    WriteHappens(was);
    EditHappens(was, d);
    var mid := Emptied(w);
    var tried := mid.(proc := mid.proc.(users := map[]), users := map[], usersHash := "after");
    h := History(Transformed(true, map[], DeviceEgress.Installed(c), Done), mid, true, tried, Graceful, false, Graceful,
                 Unreachable, mid, Graceful, false);
    v := tried.(config := c, structureHash := d.structureHash, shapingOK := ShapingOf(c));
    assert UserKey("in", "u@proxima") in w.proc.users;
  }

  // ----- A node that is blocked and runs -----

  /** The next configuration cannot be written, and Xray cannot be signalled. */
  lemma BlockedCanRun() returns (w: World, d: Digest, h: History, v: World)
    ensures Inv(w) && CleanConfig(d.config) && Applied(w, d, true, Some(d.config), h, v) && v.blocked && v.proc.running
  {
    var was := [Client("u", "", "u@proxima", "", 0)];
    w, d := Serving(was), Digest(Plain([]), "structure", "after", []);
    ServingIsSafe(was);
    PlainIsAccepted([]);
    var mid := w.(shapingOK := false, handed := d.config);
    h := History(Unreachable, mid, false, mid, Unsignalled, false, Graceful, Unreachable, mid, Graceful, false);
    v := AfterStop(mid.(blocked := true), Unsignalled);
  }
}
