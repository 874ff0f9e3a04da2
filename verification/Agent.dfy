/** The node agent's state machine: the Xray runner, and the reconciliation, rollback,
    supervision and update sequences that processMu makes atomic
    (node-agent/cmd/main.go, node-agent/internal/xray/runner.go). The predicates specify
    each sequence on a snapshot of the whole node; the methods are proved to follow them. */
module Agent {
  import opened Base
  import opened DeviceConfig
  import opened DeviceCheck
  import opened Topology
  import opened XrayProcess
  import LiveTopology
  import opened UserSync
  import DeviceEgress

  datatype World = World(
    // nodeState
    blocked: bool, config: Config, structureHash: string, usersHash: string, users: Users, gen: nat, shapingOK: bool,
    // runner: canonical and runtime configuration last written, the backup file
    canonical: Option<Config>, runtime: Config, backup: Option<Config>,
    // history: the generation last handed to WriteConfig; a Stop could not signal
    handed: Config, lost: bool,
    proc: Proc,
    egress: DeviceEgress.Egress)

  // ----- The runner's operations on a snapshot -----

  /** Stop sends SIGTERM, kills after a timeout, and may fail to signal at all. */
  datatype StopOutcome = Graceful | Killed | Unsignalled

  function AfterStop(w: World, s: StopOutcome): World {
    if w.proc.running && s == Unsignalled then w.(lost := true)
    else w.(proc := w.proc.(running := false), lost := false)
  }

  function AfterStart(w: World, up: bool): World {
    if up then w.(proc := Load(w.runtime), lost := false) else w
  }

  /** A start is only tried when the stop before it reported no error. */
  predicate RestartOk(w: World, s: StopOutcome, up: bool) {
    up && (!w.proc.running || s == Graceful)
  }

  function AfterRestart(w: World, s: StopOutcome, up: bool): World {
    AfterStart(AfterStop(w, s), RestartOk(w, s, up))
  }

  datatype Stage = AtTransform | AtBackup | AtConfig | Done

  /** How far a write (or restore) of a configuration came. */
  datatype WriteResult =
    | Unreachable
    | Unauthorized
    | Transformed(ready: bool, draw: map<string, string>, outcome: DeviceEgress.Outcome, stage: Stage)

  predicate IsDone(r: WriteResult) { r.Transformed? && r.stage == Done }

  /** The transform succeeded exactly when the write got past it. */
  ghost predicate DidTransform(e: DeviceEgress.Egress, c: Config, r: WriteResult, f: DeviceEgress.Egress) {
    && r.Transformed? && DeviceEgress.AreSecrets(r.draw)
    && DeviceEgress.TransformStep(e, c, r.ready, r.draw, r.outcome, f)
    && (r.outcome.Installed? <==> r.stage != AtTransform)
  }

  /** WriteConfig: from w to v. */
  ghost predicate Wrote(w: World, c: Config, r: WriteResult, v: World) {
    if r.Unreachable? then v == w.(handed := c)
    else
      && DidTransform(w.egress, c, r, v.egress)
      && v == w.(handed := c, egress := v.egress,
                 backup := if r.stage == AtConfig || r.stage == Done then w.canonical else w.backup,
                 canonical := if r.stage == Done then Some(c) else w.canonical,
                 runtime := if r.stage == Done then r.outcome.runtime else w.runtime)
  }

  /** RestoreConfig: from w to v. */
  ghost predicate Restored(w: World, r: WriteResult, v: World) {
    match r
    case Unreachable => v == w
    case Unauthorized => w.backup.Some? && !DeviceEgress.Restorable(w.egress, w.backup.value) && v == w
    case Transformed(_, _, outcome, stage) =>
      && w.backup.Some? && DeviceEgress.Restorable(w.egress, w.backup.value) && stage != AtBackup
      && DidTransform(w.egress, w.backup.value, r, v.egress)
      && v == w.(egress := v.egress,
                 canonical := if stage == Done then w.backup else w.canonical,
                 runtime := if stage == Done then outcome.runtime else w.runtime)
  }

  /** What the agent asked of the runner, whatever came of it. */
  datatype Attempt = TriedStop | TriedStart | TriedWrite | TriedRestore

  /** A restart always stops, and starts unless the stop reported an error. */
  function RestartAttempts(w: World, s: StopOutcome): seq<Attempt> {
    [TriedStop] + if !w.proc.running || s == Graceful then [TriedStart] else []
  }

  // ----- The sequences on a snapshot -----

  predicate ShapingOf(c: Config) { Parse(c).Ok? }

  /** What happened in one reconciliation, with the snapshots in between. */
  datatype History = History(
    write: WriteResult, mid: World, live: bool, tried: World, stop1: StopOutcome, up1: bool,
    stop2: StopOutcome, restore: WriteResult, back: World, stop3: StopOutcome, up2: bool)

  predicate UsersOnlyChange(w: World, d: Digest) {
    && w.structureHash != "" && d.structureHash != "" && w.structureHash == d.structureHash
    && d.usersHash != w.usersHash
  }

  predicate Incremental(w: World, d: Digest, c: Config) {
    !w.blocked && UsersOnlyChange(w, d) && SameLocalStructure(w.config, c)
  }

  /** The attempt to apply c live, from the snapshot after the write. */
  ghost predicate TriedLive(w: World, m: World, d: Digest, c: Config, client: bool, live: bool, t: World) {
    if !client || !Incremental(w, d, c) then !live && t == m
    else
      && t == m.(proc := m.proc.(outbounds := t.proc.outbounds, rules := t.proc.rules, users := t.users),
                 users := t.users, usersHash := t.usersHash)
      && (live ==> LiveTopology.Synced(m.proc, w.runtime, m.runtime, t.proc.(users := m.proc.users))
                   && t.users == Wanted(d) && t.usersHash == d.usersHash)
  }

  /** A start on configuration c that is then recorded. */
  function Recorded(w: World, c: Config, structureHash: string, usersHash: string): World {
    w.(blocked := false, shapingOK := ShapingOf(c), config := c, structureHash := structureHash, gen := w.gen + 1,
       usersHash := usersHash, users := VlessUsers(c))
  }

  /** A backup is restored and started, from u to v. */
  ghost predicate Readmitted(u: World, h: History, v: World) {
    && Restored(u, h.restore, h.back)
    && if !IsDone(h.restore) then v == h.back
       else if RestartOk(h.back, h.stop3, h.up2) then
         v == Recorded(AfterRestart(h.back, h.stop3, h.up2), u.backup.value, "", "")
       else v == AfterRestart(h.back, h.stop3, h.up2)
  }

  /** rollbackConfig: from t to v. */
  ghost predicate RolledBack(t: World, h: History, v: World) {
    Readmitted(AfterStop(t.(blocked := true, shapingOK := false), h.stop2), h, v)
  }

  /** A restart on the new configuration, or else a rollback, from t to v. */
  ghost predicate Restarted(t: World, d: Digest, c: Config, h: History, v: World) {
    var y := AfterRestart(t, h.stop1, h.up1);
    if RestartOk(t, h.stop1, h.up1) then v == Recorded(y, c, d.structureHash, d.usersHash) else RolledBack(y, h, v)
  }

  /** The rest of a switch, once the new configuration is written. */
  ghost predicate Finished(w: World, d: Digest, c: Config, client: bool, h: History, v: World) {
    && TriedLive(w, h.mid, d, c, client, h.live, h.tried)
    && if h.live then v == h.tried.(config := c, structureHash := d.structureHash, shapingOK := ShapingOf(c))
       else Restarted(h.tried, d, c, h, v)
  }

  ghost predicate Switched(w: World, d: Digest, c: Config, client: bool, h: History, v: World) {
    && Wrote(w.(shapingOK := false), c, h.write, h.mid)
    && if !IsDone(h.write) then v == AfterStop(h.mid.(blocked := true), h.stop1)
       else Finished(w, d, c, client, h, v)
  }

  /** The unchanged-hash path: the digest's users are those of the configuration, so only
      the hashes and the users of a process that lags behind can change. */
  ghost predicate Reconciled(w: World, d: Digest, client: bool, v: World) {
    if Wanted(d) != VlessUsers(w.config) then v == w
    else if d.usersHash == w.usersHash || !client then v == w.(structureHash := d.structureHash)
    else
      && v == w.(structureHash := d.structureHash, users := v.users, usersHash := v.usersHash,
                 proc := w.proc.(users := v.users))
      && (w.users == Wanted(d) ==> v.users == w.users && v.usersHash == d.usersHash)
  }

  /** The digest asks for another configuration, which was fetched and has its users. */
  predicate Switches(w: World, d: Digest, fetched: Option<Config>) {
    (w.blocked || d.config != w.config) && fetched == Some(d.config) && Wanted(d) == VlessUsers(d.config)
  }

  /** applyConfigDigest: from w to v. */
  ghost predicate Applied(w: World, d: Digest, client: bool, fetched: Option<Config>, h: History, v: World) {
    if !w.blocked && d.config == w.config then Reconciled(w, d, client, v)
    else if fetched == Some(d.config) && Wanted(d) == VlessUsers(d.config) then Switched(w, d, d.config, client, h, v)
    else v == w
  }

  /** One supervisor tick. */
  ghost predicate Supervised(w: World, up: bool, v: World) {
    if w.blocked || w.proc.running || !up then v == w
    else v == Recorded(AfterStart(w, true), w.config, w.structureHash, "")
  }

  /** One binary update: the new binary starts, or the old one does without reshaping, or
      none does. */
  ghost predicate Updated(w: World, s: StopOutcome, up: bool, reshape: bool, v: World) {
    if w.blocked then v == w
    else if !up || (w.proc.running && s != Graceful) then v == AfterStop(w, s)
    else
      var y := AfterStart(AfterStop(w, s), true);
      v == if reshape then Recorded(y, w.config, w.structureHash, "")
           else Recorded(y, w.config, w.structureHash, "").(shapingOK := w.shapingOK)
  }

  /** The process dies on its own. */
  ghost predicate Crashed(w: World, v: World) { v == w.(proc := w.proc.(running := false)) }

  // ----- What the sequences try -----

  /** It restores whatever backup there is, and restarts on it if that was done. */
  function ReadmitAttempts(backup: Option<Config>, h: History): seq<Attempt> {
    if backup == None then []
    else [TriedRestore] + if IsDone(h.restore) then RestartAttempts(h.back, h.stop3) else []
  }

  /** A rollback stops first. */
  function RollbackAttempts(backup: Option<Config>, h: History): seq<Attempt> {
    [TriedStop] + ReadmitAttempts(backup, h)
  }

  /** A restart that fails is followed by a rollback. */
  function RestartedAttempts(t: World, h: History): seq<Attempt> {
    RestartAttempts(t, h.stop1) + if RestartOk(t, h.stop1, h.up1) then [] else RollbackAttempts(t.backup, h)
  }

  /** A switch writes; it stops when that fails, and restarts when it did not go live. */
  function SwitchAttempts(h: History): seq<Attempt> {
    [TriedWrite] + if !IsDone(h.write) then [TriedStop] else FinishAttempts(h)
  }

  function FinishAttempts(h: History): seq<Attempt> {
    if h.live then [] else RestartedAttempts(h.tried, h)
  }
}
