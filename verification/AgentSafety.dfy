/** What every run of the node agent keeps, whatever fails on the way. */
module AgentSafety {
  import opened Base
  import opened DeviceConfig
  import opened DeviceCheck
  import opened Router
  import opened Topology
  import opened StructureKept
  import opened XrayProcess
  import opened LiveTopology
  import opened LiveEqualsRestart
  import opened UserSync
  import opened Agent
  import DeviceEgress
  import EgressGuarantees
  import LoadedLogins
  import Acceptance
  import CheckIsExact

  // ----- What it means to serve a configuration -----

  /** Names in rules are neither empty nor contain NUL, as in every published configuration. */
  ghost predicate CleanConfig(c: Config) {
    forall i | 0 <= i < |c.rules| :: CleanList(c.rules[i].Users()) && CleanList(c.rules[i].Inbounds())
  }

  /** runtime is c with local passwords for its device outbounds. */
  ghost predicate RuntimeOf(runtime: Config, c: Config) {
    exists passwords: map<string, string> ::
      (forall t | t in passwords :: IsDeviceOutboundTag(t)) && runtime == DeviceEgress.Materialize(c, passwords)
  }

  /** The process is what a start on `runtime` loads; after live edits, up to the keys of
      device outbounds only a start can give and the tags of session rules. */
  ghost predicate Serves(p: Proc, runtime: Config) {
    && p.structure == StructureOf(runtime) && p.users == VlessUsers(runtime)
    && ((p.outbounds == Load(runtime).outbounds && p.rules == Load(runtime).rules)
        || (TopologyOf(runtime).Some? && Tracks(p, TopologyOf(runtime).value)))
  }

  /** c is generation g, or a backup the restore guard accepts while g is authorized. */
  ghost predicate Admissible(c: Config, g: Config) {
    c == g ||
    (Parse(c).Ok? && Parse(g).Ok? &&
     var p, q := Parse(c).value, Parse(g).value;
     && p.identities <= q.identities
     && (forall id | id in p.rates :: id in q.rates && q.rates[id] == p.rates[id])
     && p.devices.Keys == q.devices.Keys)
  }

  /** The local egress authorizes exactly configuration c, and admits for every device
      outbound one login, bound as c says, with the password `runtime` was written with. */
  ghost predicate EgressOf(e: DeviceEgress.Egress, c: Config, runtime: Config) {
    Parse(c).Ok? &&
    var p := Parse(c).value;
    && e.authorized == Some(p.identities) && e.rates == p.rates
    && e.managed == p.devices.Keys
    && e.passwords.Keys == p.devices.Keys && runtime == DeviceEgress.Materialize(c, e.passwords)
    && Admits(e, p)
  }

  ghost predicate Admits(e: DeviceEgress.Egress, p: Parsed) {
    && e.installed.Keys == p.devices.Keys
    && forall t | t in p.devices :: Admitted(e, p, t)
  }

  /** The login of one tag. */
  ghost predicate Admitted(e: DeviceEgress.Egress, p: Parsed, t: string)
    requires t in p.devices
  {
    && t in e.passwords && t in e.installed
    && e.installed[t] ==
       DeviceEgress.Credential(p.devices[t].id, e.passwords[t], DeviceEgress.Lookup(p.sources, t),
                               DeviceEgress.Token(p, t))
  }

  /** What the running device outbounds log in with is what the egress admits, tag by tag. */
  ghost predicate AdmitsWhatRuns(e: DeviceEgress.Egress, p: Proc) {
    && p.outbounds.Keys == e.installed.Keys
    && forall t | t in p.outbounds :: LoadedLogins.LogsIn(p.outbounds[t], e.installed[t].uuid, e.installed[t].password)
  }

  ghost predicate CleanOption(c: Option<Config>) { c.Some? ==> CleanConfig(c.value) }

  /** The state between two sequences, with processMu free, when nothing is blocked. */
  ghost predicate Unblocked(w: World) {
    && w.canonical == Some(w.config)
    && RuntimeOf(w.runtime, w.config)
    && w.users == VlessUsers(w.config)
    && Serves(w.proc, w.runtime)
    && Admissible(w.config, w.handed)
    && EgressOf(w.egress, w.config, w.runtime)
  }

  ghost predicate Inv(w: World) {
    && DeviceEgress.WellFormed(w.egress)
    && CleanOption(w.canonical) && CleanOption(w.backup)
    && if w.blocked then !w.shapingOK && (w.proc.running ==> w.lost) else Unblocked(w)
  }

  // ----- Materializing changes no structure, no user and no rule -----

  lemma MaterializedOne(o: Outbound, passwords: map<string, string>)
    requires forall t | t in passwords :: IsDeviceOutboundTag(t)
    ensures DeviceEgress.MaterializedOutbound(o, passwords).tag == o.tag
    ensures !IsDeviceOutboundTag(o.tag) ==> DeviceEgress.MaterializedOutbound(o, passwords) == o
  {
  }

  lemma {:induction false} MaterializedStructure(outs: seq<Outbound>, passwords: map<string, string>)
    requires forall t | t in passwords :: IsDeviceOutboundTag(t)
    ensures OtherOutbounds(DeviceEgress.MaterializedAll(outs, passwords)) == OtherOutbounds(outs)
  {
    if outs != [] {
      var m := DeviceEgress.MaterializedAll(outs, passwords);
      assert m[0] == DeviceEgress.MaterializedOutbound(outs[0], passwords);
      assert m[1..] == DeviceEgress.MaterializedAll(outs[1..], passwords);
      MaterializedOne(outs[0], passwords);
      MaterializedStructure(outs[1..], passwords);
    }
  }

  lemma RuntimeKeeps(runtime: Config, c: Config)
    requires RuntimeOf(runtime, c)
    ensures StructureOf(runtime) == StructureOf(c) && VlessUsers(runtime) == VlessUsers(c) && runtime.rules == c.rules
  {
    var passwords: map<string, string> :|
      (forall t | t in passwords :: IsDeviceOutboundTag(t)) && runtime == DeviceEgress.Materialize(c, passwords);
    MaterializedStructure(c.outbounds, passwords);
  }

  lemma CleanTopology(runtime: Config, c: Config)
    requires RuntimeOf(runtime, c) && CleanConfig(c) && TopologyOf(runtime).Some?
    ensures Clean(TopologyOf(runtime).value.rules)
  {
    RuntimeKeeps(runtime, c);
    assert TopologyOf(runtime).value.rules == LiveForms(runtime.rules);
  }

  // ----- What a transform leaves -----

  lemma DeclaredTags(c: Config, passwords: map<string, string>)
    requires Parse(c).Ok? && passwords.Keys == Parse(c).value.devices.Keys
    ensures forall t | t in passwords :: IsDeviceOutboundTag(t)
  {
    forall t | t in passwords ensures IsDeviceOutboundTag(t) {
      DevicesAreDeclared(c, t);
      DeviceTagParts(t);
    }
  }

  lemma InstalledAdmits(e: DeviceEgress.Egress, c: Config, p: Parsed, draw: map<string, string>,
                        o: DeviceEgress.Outcome, f: DeviceEgress.Egress)
    requires DeviceEgress.WellFormed(e) && DeviceEgress.AreSecrets(draw) && DeviceEgress.AdmitStep(e, c, p, draw, o, f)
             && o.Installed?
    ensures f.passwords.Keys == p.devices.Keys && o.runtime == DeviceEgress.Materialize(c, f.passwords) && Admits(f, p)
  {
    EgressGuarantees.AdmittedSecrets(e, c, p, draw, o, f);
    forall t | t in p.devices ensures Admitted(f, p, t) {
      EgressGuarantees.AdmittedEntry(e, c, p, draw, o, f, t);
    }
  }

  lemma TransformFacts(e: DeviceEgress.Egress, c: Config, r: WriteResult, f: DeviceEgress.Egress)
    requires DidTransform(e, c, r, f) && DeviceEgress.WellFormed(e)
    ensures DeviceEgress.WellFormed(f)
    ensures r.stage != AtTransform ==> EgressOf(f, c, r.outcome.runtime) && RuntimeOf(r.outcome.runtime, c)
  {
    if Parse(c).Ok? && !r.outcome.NotReady? {
      var p := Parse(c).value;
      DeviceEgress.AdmitWellFormed(e, c, p, r.draw, r.outcome, f);
      if r.outcome.Installed? {
        InstalledAdmits(e, c, p, r.draw, r.outcome, f);
        EgressGuarantees.TransformAuthorizes(e, c, r.ready, r.draw, r.outcome, f);
        DeclaredTags(c, f.passwords);
      }
    }
  }

  /** The snapshot right after a write, as far as the rest of a switch needs it. */
  ghost predicate AfterWrite(w: World, c: Config, done: bool, m: World) {
    && m.proc == w.proc && m.blocked == w.blocked && m.users == w.users && m.gen == w.gen
    && !m.shapingOK && m.handed == c
    && DeviceEgress.WellFormed(m.egress) && CleanOption(m.canonical) && CleanOption(m.backup)
    && (done ==> m.canonical == Some(c) && RuntimeOf(m.runtime, c) && EgressOf(m.egress, c, m.runtime))
  }

  lemma WriteFacts(w: World, c: Config, r: WriteResult, m: World)
    requires DeviceEgress.WellFormed(w.egress) && CleanOption(w.canonical) && CleanOption(w.backup) && CleanConfig(c)
    requires Wrote(w.(shapingOK := false), c, r, m)
    ensures AfterWrite(w, c, IsDone(r), m)
  {
    if r.Transformed? {
      TransformFacts(w.egress, c, r, m.egress);
    }
  }

  // ----- Every step keeps the invariant -----

  lemma LoadedServes(w: World, c: Config, hash: string, usersHash: string)
    requires DeviceEgress.WellFormed(w.egress) && CleanOption(w.canonical) && CleanOption(w.backup)
    requires w.canonical == Some(c) && RuntimeOf(w.runtime, c) && Admissible(c, w.handed)
             && EgressOf(w.egress, c, w.runtime)
    requires w.proc == Load(w.runtime)
    ensures Inv(Recorded(w, c, hash, usersHash))
  {
    RuntimeKeeps(w.runtime, c);
  }

  lemma StoppedIsSafe(m: World, s: StopOutcome)
    requires DeviceEgress.WellFormed(m.egress) && CleanOption(m.canonical) && CleanOption(m.backup) && m.blocked
             && !m.shapingOK
    ensures Inv(AfterStop(m, s))
  {
  }

  lemma LiveKeeps(w: World, m: World, d: Digest, c: Config, t: World, v: World)
    requires Inv(w) && !w.blocked && CleanConfig(c) && AfterWrite(w, c, true, m)
    requires TriedLive(w, m, d, c, true, true, t) && Wanted(d) == VlessUsers(c)
    requires v == t.(config := c, structureHash := d.structureHash, shapingOK := ShapingOf(c))
    ensures Inv(v)
    ensures v.proc.structure == StructureOf(v.runtime) && v.proc.users == VlessUsers(v.runtime)
    ensures TopologyOf(v.runtime).Some? && Tracks(v.proc, TopologyOf(v.runtime).value)
  {
    RuntimeKeeps(w.runtime, w.config);
    RuntimeKeeps(m.runtime, c);
    CleanTopology(w.runtime, w.config);
    CleanTopology(m.runtime, c);
    SameStructureLoads(w.config, c);
    if !Tracks(m.proc, TopologyOf(w.runtime).value) {
      LoadTracks(w.runtime);
    }
    SyncTracks(m.proc, w.runtime, m.runtime, t.proc.(users := m.proc.users));
  }

  lemma RestoreFacts(u: World, r: WriteResult, b: World)
    requires DeviceEgress.WellFormed(u.egress) && CleanOption(u.canonical) && CleanOption(u.backup)
    requires EgressOf(u.egress, u.handed, u.runtime) && Restored(u, r, b)
    ensures DeviceEgress.WellFormed(b.egress) && CleanOption(b.canonical) && CleanOption(b.backup)
    ensures b == u.(egress := b.egress, canonical := b.canonical, runtime := b.runtime)
    ensures IsDone(r) ==> u.backup.Some? && b.canonical == u.backup && RuntimeOf(b.runtime, u.backup.value)
                          && Admissible(u.backup.value, u.handed) && EgressOf(b.egress, u.backup.value, b.runtime)
  {
    if r.Transformed? {
      TransformFacts(u.egress, u.backup.value, r, b.egress);
    }
  }

  lemma RollbackKeeps(t: World, h: History, v: World)
    requires DeviceEgress.WellFormed(t.egress) && CleanOption(t.canonical) && CleanOption(t.backup)
    requires EgressOf(t.egress, t.handed, t.runtime) && RolledBack(t, h, v)
    ensures Inv(v)
  {
    var u := AfterStop(t.(blocked := true, shapingOK := false), h.stop2);
    RestoreFacts(u, h.restore, h.back);
    if IsDone(h.restore) && RestartOk(h.back, h.stop3, h.up2) {
      LoadedServes(AfterRestart(h.back, h.stop3, h.up2), u.backup.value, "", "");
    } else if IsDone(h.restore) {
      StoppedIsSafe(h.back, h.stop3);
    }
  }

  lemma RestartFrame(t: World, s: StopOutcome, up: bool)
    ensures var y := AfterRestart(t, s, up);
            && y == t.(proc := y.proc, lost := y.lost)
            && (RestartOk(t, s, up) ==> y.proc == Load(t.runtime))
            && (!RestartOk(t, s, up) ==> y == AfterStop(t, s))
  {
  }

  /** A switch that did not go live: from the attempt's snapshot to the end. */
  lemma RestartKeeps(t: World, d: Digest, c: Config, h: History, v: World)
    requires DeviceEgress.WellFormed(t.egress) && CleanOption(t.canonical) && CleanOption(t.backup)
    requires t.canonical == Some(c) && t.handed == c && RuntimeOf(t.runtime, c) && EgressOf(t.egress, c, t.runtime)
    requires Restarted(t, d, c, h, v)
    ensures Inv(v)
  {
    var y := AfterRestart(t, h.stop1, h.up1);
    RestartFrame(t, h.stop1, h.up1);
    if RestartOk(t, h.stop1, h.up1) {
      LoadedServes(y, c, d.structureHash, d.usersHash);
    } else {
      RollbackKeeps(y, h, v);
    }
  }

  /** Once the new configuration is written. */
  lemma FinishedKeeps(w: World, d: Digest, c: Config, client: bool, h: History, v: World)
    requires Inv(w) && CleanConfig(c) && Wanted(d) == VlessUsers(c)
    requires AfterWrite(w, c, true, h.mid) && Finished(w, d, c, client, h, v)
    ensures Inv(v)
  {
    if h.live {
      LiveKeeps(w, h.mid, d, c, h.tried, v);
    } else {
      RestartKeeps(h.tried, d, c, h, v);
    }
  }

  lemma SwitchKeeps(w: World, d: Digest, c: Config, client: bool, h: History, v: World)
    requires Inv(w) && CleanConfig(c) && Wanted(d) == VlessUsers(c) && Switched(w, d, c, client, h, v)
    ensures Inv(v)
  {
    WriteFacts(w, c, h.write, h.mid);
    if IsDone(h.write) {
      FinishedKeeps(w, d, c, client, h, v);
    } else {
      StoppedIsSafe(h.mid.(blocked := true), h.stop1);
    }
  }

  lemma AppliedKeeps(w: World, d: Digest, client: bool, fetched: Option<Config>, h: History, v: World)
    requires Inv(w) && CleanConfig(d.config) && Applied(w, d, client, fetched, h, v)
    ensures Inv(v)
  {
    if !w.blocked && d.config == w.config {
    } else if fetched == Some(d.config) && Wanted(d) == VlessUsers(d.config) {
      SwitchKeeps(w, d, d.config, client, h, v);
    }
  }

  /** A node that is not blocked knows the users of its process, as the incremental path and
      the unchanged-hash path need it. */
  lemma UsersAreKnown(w: World)
    requires Inv(w) && !w.blocked
    ensures w.proc.users == w.users
  {
    RuntimeKeeps(w.runtime, w.config);
  }

  lemma SupervisedKeeps(w: World, up: bool, v: World)
    requires Inv(w) && Supervised(w, up, v)
    ensures Inv(v)
  {
    if !w.blocked && !w.proc.running && up {
      LoadedServes(AfterStart(w, true), w.config, w.structureHash, "");
    }
  }

  /** A start on the recorded configuration, with the shaping report renewed or not. */
  lemma StartedKeeps(w: World, s: StopOutcome, shaping: bool)
    requires Inv(w) && !w.blocked
    ensures Inv(Recorded(AfterStart(AfterStop(w, s), true), w.config, w.structureHash, "").(shapingOK := shaping))
  {
    var y := AfterStart(AfterStop(w, s), true);
    LoadedServes(y, w.config, w.structureHash, "");
    IgnoresShaping(Recorded(y, w.config, w.structureHash, ""), shaping);
  }

  lemma UpdatedKeeps(w: World, s: StopOutcome, up: bool, reshape: bool, v: World)
    requires Inv(w) && Updated(w, s, up, reshape, v)
    ensures Inv(v)
  {
    if !w.blocked {
      if up && (!w.proc.running || s == Graceful) {
        StartedKeeps(w, s, if reshape then ShapingOf(w.config) else w.shapingOK);
      } else {
        IgnoresRunning(w, v);
      }
    }
  }

  lemma IgnoresShaping(w: World, shaping: bool)
    requires Inv(w) && !w.blocked
    ensures Inv(w.(shapingOK := shaping))
  {
  }

  lemma IgnoresRunning(w: World, v: World)
    requires Inv(w) && !w.blocked && v == w.(proc := w.proc.(running := v.proc.running), lost := v.lost)
    ensures Inv(v)
  {
  }

  /** A step of the node: one whole sequence, or the death of the process. Published
      configurations are clean. */
  ghost predicate Step(w: World, v: World) {
    || (exists d: Digest, client, fetched, h :: CleanConfig(d.config) && Applied(w, d, client, fetched, h, v))
    || (exists up :: Supervised(w, up, v))
    || (exists s, up, reshape :: Updated(w, s, up, reshape, v))
    || Crashed(w, v)
  }

  lemma StepKeeps(w: World, v: World)
    requires Inv(w) && Step(w, v)
    ensures Inv(v)
  {
    if d: Digest, client, fetched, h :| CleanConfig(d.config) && Applied(w, d, client, fetched, h, v) {
      AppliedKeeps(w, d, client, fetched, h, v);
    } else if up :| Supervised(w, up, v) {
      SupervisedKeeps(w, up, v);
    } else if s, up, reshape :| Updated(w, s, up, reshape, v) {
      UpdatedKeeps(w, s, up, reshape, v);
    }
  }

  /** A run begins like this: the first configuration is written and Xray started on it. */
  lemma BootIsSafe(w: World, c: Config, r: WriteResult, m: World)
    requires DeviceEgress.WellFormed(w.egress) && w.canonical == None && !w.blocked
    requires w.config == c && w.users == VlessUsers(c) && CleanConfig(c)
    requires Wrote(w, c, r, m) && IsDone(r)
    ensures Inv(AfterStart(m, true))
  {
    TransformFacts(w.egress, c, r, m.egress);
    RuntimeKeeps(m.runtime, c);
  }

  /** Between sequences every running device outbound logs in with the one login the egress
      admits for its tag, and the egress admits no other. */
  lemma ServesAdmitted(w: World)
    requires Inv(w) && !w.blocked
    ensures AdmitsWhatRuns(w.egress, w.proc)
  {
    var p, passwords := Parse(w.config).value, w.egress.passwords;
    if w.proc.outbounds == Load(w.runtime).outbounds {
      LoadedLogins.StartLogsIn(w.config, passwords);
    } else {
      LoadedLogins.TrackingLogsIn(w.proc, w.config, passwords);
    }
    forall t | t in w.proc.outbounds
      ensures t in w.egress.installed
      ensures LoadedLogins.LogsIn(w.proc.outbounds[t], w.egress.installed[t].uuid, w.egress.installed[t].password)
    {
      assert Admitted(w.egress, p, t);
    }
  }

  /** MAIN RESULT. In every state a run reaches with processMu free, Xray is stopped, or
      serves the very generation last handed to WriteConfig, or serves a backup the restore
      guard accepted under that generation, and the local egress admits exactly the logins
      of the device outbounds Xray runs; while restarts are blocked shaping is not reported, and Xray is stopped
      unless the last Stop could not even signal it. */
  lemma {:induction false} RunsAreSafe(run: seq<World>)
    requires |run| > 0 && Inv(run[0]) && forall n | 1 <= n < |run| :: Step(run[n - 1], run[n])
    ensures var w := run[|run| - 1];
            && Inv(w)
            && (w.proc.running && !w.lost ==>
                  !w.blocked && Serves(w.proc, w.runtime) && RuntimeOf(w.runtime, w.config)
                  && Admissible(w.config, w.handed) && EgressOf(w.egress, w.config, w.runtime)
                  && AdmitsWhatRuns(w.egress, w.proc))
            && (w.blocked ==> !w.shapingOK && (w.proc.running ==> w.lost))
  {
    var n := |run| - 1;
    if n > 0 {
      RunsAreSafe(run[..n]);
      StepKeeps(run[n - 1], run[n]);
    }
    if !run[n].blocked {
      ServesAdmitted(run[n]);
    }
  }

  // ----- Blocked means stopped -----

  /** Every Stop of a reconciliation that ends blocked failed to signal the process. */
  predicate EveryStopLost(h: History) {
    && h.stop1 == Unsignalled
    && (IsDone(h.write) ==> h.stop2 == Unsignalled && (IsDone(h.restore) ==> h.stop3 == Unsignalled))
  }

  lemma RolledBackRuns(t: World, h: History, v: World)
    requires RolledBack(t, h, v) && v.blocked
    ensures v.proc.running <==>
            t.proc.running && h.stop2 == Unsignalled && (IsDone(h.restore) ==> h.stop3 == Unsignalled)
  {
  }

  lemma RestartedRuns(t: World, d: Digest, c: Config, h: History, v: World)
    requires Restarted(t, d, c, h, v) && v.blocked
    ensures v.proc.running <==>
            t.proc.running && h.stop1 == Unsignalled && h.stop2 == Unsignalled
                && (IsDone(h.restore) ==> h.stop3 == Unsignalled)
  {
    RestartFrame(t, h.stop1, h.up1);
    if !RestartOk(t, h.stop1, h.up1) {
      RolledBackRuns(AfterRestart(t, h.stop1, h.up1), h, v);
    }
  }

  lemma WriteFrame(w: World, c: Config, r: WriteResult, m: World)
    requires Wrote(w.(shapingOK := false), c, r, m)
    ensures m.proc == w.proc && m.blocked == w.blocked
  {
  }

  /** Exactly when a reconciliation that ends blocked leaves Xray running: it was running,
      and no SIGTERM of the whole sequence could be delivered. */
  lemma BlockedRunsExactlyWhenUnsignalled(w: World, d: Digest, c: Config, client: bool, h: History, v: World)
    requires Switched(w, d, c, client, h, v) && v.blocked
    ensures v.proc.running <==> w.proc.running && EveryStopLost(h)
  {
    WriteFrame(w, c, h.write, h.mid);
    if IsDone(h.write) && !h.live {
      RestartedRuns(h.tried, d, c, h, v);
    }
  }

  // ----- The live path gives the restarted process -----

  lemma LiveSwitchFacts(w: World, d: Digest, c: Config, h: History, v: World)
    requires Inv(w) && CleanConfig(c) && Wanted(d) == VlessUsers(c)
    requires Switched(w, d, c, true, h, v) && IsDone(h.write) && h.live
    ensures Inv(v) && !w.blocked && RuntimeOf(w.runtime, w.config) && RuntimeOf(v.runtime, c)
    ensures v.config == c && v.gen == w.gen && v.proc.running == w.proc.running
    ensures v.proc.structure == StructureOf(v.runtime) && v.proc.users == VlessUsers(v.runtime)
    ensures Synced(w.proc, w.runtime, v.runtime, v.proc.(users := w.proc.users))
    ensures Tracks(w.proc, TopologyOf(w.runtime).value) && Tracks(v.proc, TopologyOf(v.runtime).value)
    ensures Clean(TopologyOf(w.runtime).value.rules) && Clean(TopologyOf(v.runtime).value.rules)
  {
    WriteFacts(w, c, h.write, h.mid);
    LiveKeeps(w, h.mid, d, c, h.tried, v);
    CleanTopology(w.runtime, w.config);
    CleanTopology(v.runtime, c);
    LoadTracks(w.runtime);
  }

  /** MAIN RESULT. When a reconciliation takes the incremental path to the end, the running
      process has the structure, the users, the device outbounds and the ordered rules that
      a restart on the new configuration would load. Whatever was edited live before, it is
      exactly the restarted process if and only if it runs and nothing needs a start; from a
      process as loaded that depends on the change alone. */
  lemma LiveSwitchIsRestart(w: World, d: Digest, c: Config, h: History, v: World)
    requires Inv(w) && CleanConfig(c) && Wanted(d) == VlessUsers(c)
    requires Switched(w, d, c, true, h, v) && IsDone(h.write) && h.live
    ensures Serves(v.proc, v.runtime) && RuntimeOf(v.runtime, c) && v.config == c && v.gen == w.gen
    ensures TopologyOf(w.runtime).Some? && TopologyOf(v.runtime).Some?
    ensures v.proc == Load(v.runtime) <==> w.proc.running && NoStartFrom(w.proc, w.runtime, v.runtime)
    ensures w.proc == Load(w.runtime) ==> (v.proc == Load(v.runtime) <==> NeedsNoStart(w.runtime, v.runtime))
  {
    LiveSwitchFacts(w, d, c, h, v);
    LiveIsRestart(w.proc, w.runtime, v.runtime, v.proc.(users := w.proc.users));
    if w.proc == Load(w.runtime) {
      FromALoadedProcess(w.proc, w.runtime, v.runtime);
    }
  }

  /** The live path is only taken on a node that is not blocked, with a client, when the control
      plane knows both structures, calls them the same, and names other users. */
  lemma LiveOnlyWhen(w: World, d: Digest, c: Config, client: bool, h: History, v: World)
    requires Switched(w, d, c, client, h, v) && IsDone(h.write) && h.live
    ensures client && !w.blocked && w.structureHash != "" && d.structureHash == w.structureHash
            && d.usersHash != w.usersHash
  {
  }

  /** A switch of an unblocked node that ends unblocked ends on the new configuration, or on the
      one the node served before. */
  lemma SwitchEndsSomewhere(w: World, d: Digest, c: Config, client: bool, h: History, v: World)
    requires Inv(w) && !w.blocked && Switched(w, d, c, client, h, v) && !v.blocked
    ensures v.config == c || v.config == w.config
  {
    if IsDone(h.write) && !h.live {
      RestartFrame(h.tried, h.stop1, h.up1);
      if !RestartOk(h.tried, h.stop1, h.up1) {
        BackupIsOld(AfterRestart(h.tried, h.stop1, h.up1), h, v, w.config);
      }
    }
  }

  lemma BackupIsOld(t: World, h: History, v: World, before: Config)
    requires RolledBack(t, h, v) && !v.blocked && t.backup == Some(before)
    ensures v.config == before
  {
  }

  /** Whatever an unblocked node serves, each of its clients, of whatever protocol, is a client
      of the generation last handed over, under the same inbound, secret and email. */
  lemma ServedClientsAreCurrent(w: World, protocol: string, inbound: string, secret: string, email: string)
    requires Inv(w) && !w.blocked && Acceptance.Lists(w.config, protocol, inbound, secret, email)
    ensures Acceptance.Lists(w.handed, protocol, inbound, secret, email)
  {
    if w.config != w.handed {
      CheckIsExact.IdentitiesExactly(w.config, protocol, inbound, secret, email);
      CheckIsExact.IdentitiesExactly(w.handed, protocol, inbound, secret, email);
    }
  }

  // ----- The live path starts well -----

  /** The step-by-step guarantee of SyncDeviceTopology applies to every live edit of a run:
      once the new configuration is written, the process and both runtime configurations meet
      what it asks for, if each rule for a device outbound names one its configuration has. */
  lemma LiveEditStartsWell(w: World, c: Config, r: WriteResult, m: World)
    requires Inv(w) && !w.blocked && CleanConfig(c) && Wrote(w.(shapingOK := false), c, r, m) && IsDone(r)
    requires TopologyOf(w.runtime).Some? && ReferenceClosed(TopologyOf(w.runtime).value)
    requires TopologyOf(m.runtime).Some? ==> ReferenceClosed(TopologyOf(m.runtime).value)
    ensures GoodSync(m.proc, w.runtime, m.runtime)
  {
    WriteFacts(w, c, r, m);
    CleanTopology(w.runtime, w.config);
    LoadTracks(w.runtime);
    TracksHaveNoDangling(w.proc, TopologyOf(w.runtime).value);
    OutboundsAreDevices(w.runtime.outbounds);
    if TopologyOf(m.runtime).Some? {
      CleanTopology(m.runtime, c);
      OutboundsAreDevices(m.runtime.outbounds);
    }
  }

  // ----- An unchanged configuration costs no RPC -----

  /** In a reachable state, a digest whose configuration is already applied changes no
      user of the process, and only the recorded hashes of the node. */
  lemma UnchangedConfigTouchesNothing(w: World, d: Digest, client: bool, fetched: Option<Config>, h: History, v: World)
    requires Inv(w) && !w.blocked && d.config == w.config && Applied(w, d, client, fetched, h, v)
    ensures v.proc == w.proc && v.users == w.users
            && v == w.(structureHash := v.structureHash, usersHash := v.usersHash)
  {
  }
}
