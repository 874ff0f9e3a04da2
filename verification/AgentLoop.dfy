/** The runner and the sequences of the agent's goroutines as they update their objects,
    proved to follow the specification in module Agent. External outcomes (signals, disk,
    process start) are arbitrary. */
module AgentLoop {
  import opened Base
  import opened DeviceConfig
  import opened DeviceCheck
  import opened Topology
  import opened XrayProcess
  import LiveTopology
  import opened UserSync
  import opened Agent
  import DeviceEgress

  class XrayRunner {
    const p: XrayProcess
    const e: DeviceEgress.DeviceEgress
    var canonical: Option<Config>
    var runtime: Config
    var backup: Option<Config>
    ghost var handed: Config
    ghost var lost: bool
    ghost var asked: seq<Attempt>

    constructor (p: XrayProcess, e: DeviceEgress.DeviceEgress, nothing: Config)
      ensures this.p == p && this.e == e && canonical == None && backup == None && !lost && asked == []
    {
      this.p, this.e, canonical, runtime, backup, handed, lost := p, e, None, nothing, None, nothing, false;
      asked := [];
    }

    /** The whole node, with the given node state. */
    ghost function Snap(s: NodeState): World
      reads this, p, e, s
    {
      World(s.restartBlocked, s.config, s.structureHash, s.usersHash, s.users, s.xrayGen, s.shapingOK,
            canonical, runtime, backup, handed, lost, p.Now(), e.State())
    }

    method Stop(ghost s: NodeState) returns (out: StopOutcome)
      modifies `lost, `asked, p`running
      ensures Snap(s) == AfterStop(old(Snap(s)), out)
      ensures !old(p.running) ==> out == Graceful
      ensures asked == old(asked) + [TriedStop]
    {
      asked := asked + [TriedStop];
      if !p.running {
        lost := false;
        return Graceful;
      }
      var signalled, inTime := *, *;
      if !signalled {
        lost := true;
        return Unsignalled;
      }
      p.running := false;
      lost := false;
      return if inTime then Graceful else Killed;
    }

    method Start(ghost s: NodeState) returns (up: bool)
      modifies `lost, `asked, p
      ensures old(p.running) ==> !up
      ensures Snap(s) == AfterStart(old(Snap(s)), up) && p.calls == old(p.calls)
      ensures asked == old(asked) + [TriedStart]
    {
      asked := asked + [TriedStart];
      if p.running {
        return false;
      }
      up := *;
      if up {
        var l := Load(runtime);
        p.running, p.structure, p.outbounds, p.rules, p.users := true, l.structure, l.outbounds, l.rules, l.users;
        lost := false;
      }
    }

    /** `up` is what the start attempt gave, false when none was made. */
    method Restart(ghost s: NodeState) returns (out: StopOutcome, up: bool)
      modifies `lost, `asked, p
      ensures up == RestartOk(old(Snap(s)), out, up)
      ensures Snap(s) == AfterRestart(old(Snap(s)), out, up) && p.calls == old(p.calls)
      ensures asked == old(asked) + RestartAttempts(old(Snap(s)), out)
    {
      up := false;
      var running := p.running;
      out := Stop(s);
      if running && out != Graceful {
        return;
      }
      up := Start(s);
    }

    method WriteConfig(c: Config, ready: bool, draw: map<string, string>, ghost s: NodeState) returns (r: WriteResult)
      requires DeviceEgress.WellFormed(e.State()) && DeviceEgress.AreSecrets(draw)
      modifies this, e
      ensures DeviceEgress.WellFormed(e.State())
      ensures Wrote(old(Snap(s)), c, r, Snap(s))
      ensures asked == old(asked) + [TriedWrite]
    {
      asked := asked + [TriedWrite];
      handed := c;
      var secured := *;
      if !secured {
        return Unreachable;
      }
      var o := e.TransformConfig(c, ready, draw);
      if !o.Installed? {
        return Transformed(ready, draw, o, AtTransform);
      }
      var stage := Save(c, o.runtime);
      return Transformed(ready, draw, o, stage);
    }

    /** Backs the last configuration up, then writes the new one. */
    method Save(c: Config, written: Config) returns (stage: Stage)
      modifies `backup, `canonical, `runtime
      ensures stage == AtBackup || stage == AtConfig || stage == Done
      ensures backup == if stage == AtBackup then old(backup) else old(canonical)
      ensures canonical == if stage == Done then Some(c) else old(canonical)
      ensures runtime == if stage == Done then written else old(runtime)
    {
      var backedUp, replaced := *, *;
      if !backedUp {
        return AtBackup;
      }
      backup := canonical;
      if !replaced {
        return AtConfig;
      }
      canonical, runtime := Some(c), written;
      return Done;
    }

    method RestoreConfig(ready: bool, draw: map<string, string>, ghost s: NodeState) returns (r: WriteResult)
      requires DeviceEgress.WellFormed(e.State()) && DeviceEgress.AreSecrets(draw)
      modifies this, e
      ensures DeviceEgress.WellFormed(e.State())
      ensures Restored(old(Snap(s)), r, Snap(s))
      ensures asked == old(asked) + [TriedRestore]
    {
      asked := asked + [TriedRestore];
      var readable, written := *, *;
      if !readable || backup == None {
        return Unreachable;
      }
      var refused := e.CanRestore(backup.value);
      if refused.Some? {
        return Unauthorized;
      }
      var o := e.TransformConfig(backup.value, ready, draw);
      if !o.Installed? {
        return Transformed(ready, draw, o, AtTransform);
      }
      if !written {
        return Transformed(ready, draw, o, AtConfig);
      }
      canonical, runtime := backup, o.runtime;
      return Transformed(ready, draw, o, Done);
    }
  }

  method ApplyShaping(c: Config, s: NodeState)
    modifies s`shapingOK
    ensures s.shapingOK == ShapingOf(c)
  {
    var parsed := ParseDeviceConfig(c);
    s.shapingOK := parsed.Ok?;
  }

  /** A successful start is recorded. */
  method Record(r: XrayRunner, s: NodeState, c: Config, structureHash: string, usersHash: string)
    modifies s
    ensures r.Snap(s) == Recorded(old(r.Snap(s)), c, structureHash, usersHash)
  {
    s.restartBlocked := false;
    ApplyShaping(c, s);
    s.SetConfig(c, structureHash);
    var users := VlessUsersOfConfig(c);
    s.NoteXrayRestartedWith(usersHash, users);
  }

  /** A restart, recorded when it succeeds. */
  method RestartAndRecord(r: XrayRunner, s: NodeState, c: Config, structureHash: string, usersHash: string)
    returns (out: StopOutcome, up: bool)
    modifies r`lost, r`asked, r.p, s
    ensures var t := old(r.Snap(s));
            && up == RestartOk(t, out, up)
            && r.Snap(s) == if up then Recorded(AfterRestart(t, out, up), c, structureHash, usersHash)
                            else AfterRestart(t, out, up)
    ensures r.asked == old(r.asked) + RestartAttempts(old(r.Snap(s)), out) && r.p.calls == old(r.p.calls)
  {
    out, up := r.Restart(s);
    if up {
      Record(r, s, c, structureHash, usersHash);
    }
  }

  lemma ReadmitIs(u: World, h: History, v: World)
    requires Restored(u, h.restore, h.back)
    requires if IsDone(h.restore) then
               v == if RestartOk(h.back, h.stop3, h.up2)
                    then Recorded(AfterRestart(h.back, h.stop3, h.up2), u.backup.value, "", "")
                    else AfterRestart(h.back, h.stop3, h.up2)
             else v == h.back
    ensures Readmitted(u, h, v)
  {
  }

  method Readmit(r: XrayRunner, s: NodeState, ready: bool, draw: map<string, string>, ghost h: History)
    returns (ghost h': History)
    requires DeviceEgress.WellFormed(r.e.State()) && DeviceEgress.AreSecrets(draw)
    modifies r, r.p, r.e, s
    ensures DeviceEgress.WellFormed(r.e.State())
    ensures Readmitted(old(r.Snap(s)), h', r.Snap(s))
    ensures r.asked == old(r.asked) + ReadmitAttempts(old(r.backup), h') && r.p.calls == old(r.p.calls)
    ensures h' == h.(restore := h'.restore, back := h'.back, stop3 := h'.stop3, up2 := h'.up2)
  {
    ghost var u := r.Snap(s);
    var prev := r.backup;
    h' := h.(restore := Unreachable, back := u);
    if prev != None {
      var restore := r.RestoreConfig(ready, draw, s);
      h' := h'.(restore := restore, back := r.Snap(s));
      if IsDone(restore) {
        var stop3, up2 := RestartAndRecord(r, s, prev.value, "", "");
        h' := h'.(stop3 := stop3, up2 := up2);
      }
    }
    ReadmitIs(u, h', r.Snap(s));
    ReadmitAsks(old(r.asked), prev, h');
  }

  lemma ReadmitAsks(before: seq<Attempt>, backup: Option<Config>, h: History)
    ensures before + ReadmitAttempts(backup, h) ==
            if backup == None then before
            else if IsDone(h.restore) then before + [TriedRestore] + RestartAttempts(h.back, h.stop3)
            else before + [TriedRestore]
  {
  }

  method RollbackConfig(r: XrayRunner, s: NodeState, ready: bool, draw: map<string, string>, ghost h: History)
    returns (ghost h': History)
    requires DeviceEgress.WellFormed(r.e.State()) && DeviceEgress.AreSecrets(draw)
    modifies r, r.p, r.e, s
    ensures DeviceEgress.WellFormed(r.e.State())
    ensures RolledBack(old(r.Snap(s)), h', r.Snap(s))
    ensures r.asked == old(r.asked) + RollbackAttempts(old(r.backup), h') && r.p.calls == old(r.p.calls)
    ensures h' == h.(stop2 := h'.stop2, restore := h'.restore, back := h'.back, stop3 := h'.stop3, up2 := h'.up2)
  {
    s.restartBlocked := true;
    s.shapingOK := false;
    var stop2 := r.Stop(s);
    h' := Readmit(r, s, ready, draw, h.(stop2 := stop2));
  }

  /** Some RPC since then did not take effect. */
  ghost predicate SomeFailed(before: seq<Call>, after: seq<Call>) {
    exists n :: |before| <= n < |after| && !after[n].landed
  }

  /** The incremental path, up to the point where it succeeds or a restart is needed. */
  method TryLive(r: XrayRunner, s: NodeState, d: Digest, c: Config, client: bool, incremental: bool,
                 prevRuntime: Config, ghost w: World)
    returns (live: bool)
    requires incremental == Incremental(w, d, c) && prevRuntime == w.runtime
    requires incremental ==> r.p.users == s.users
    modifies r.p, s`users, s`usersHash
    ensures TriedLive(w, old(r.Snap(s)), d, c, client, live, r.Snap(s))
    ensures !live && client && incremental ==>
              LiveTopology.GivesUp(prevRuntime, r.runtime) || SomeFailed(old(r.p.calls), r.p.calls)
  {
    if !incremental || !client {
      return false;
    }
    live := LiveTopology.SyncDeviceTopology(client, r.p, prevRuntime, r.runtime);
    if live {
      live := SyncOrFail(r.p, s, d);
    }
  }

  /** With a client, the users are synchronized or some RPC failed. */
  method SyncOrFail(p: XrayProcess, s: NodeState, d: Digest) returns (ok: bool)
    requires p.users == s.users
    modifies p, s`users, s`usersHash
    ensures p.Now() == old(p.Now()).(users := s.users) && old(p.calls) <= p.calls
    ensures if ok then s.users == Wanted(d) && s.usersHash == d.usersHash else SomeFailed(old(p.calls), p.calls)
  {
    ghost var before := p.calls;
    ghost var landed;
    ok, landed := SyncUsers(true, p, s, d);
    if !ok {
      ghost var n := SomeNotLanded(p.calls[|before|..]);
      assert p.calls[|before| + n] == p.calls[|before|..][n];
    }
  }

  method RestartOn(r: XrayRunner, s: NodeState, d: Digest, c: Config, ready: bool, draw: map<string, string>,
                   ghost h: History)
    returns (ghost h': History)
    requires DeviceEgress.WellFormed(r.e.State()) && DeviceEgress.AreSecrets(draw)
    modifies r, r.p, r.e, s
    ensures DeviceEgress.WellFormed(r.e.State())
    ensures Restarted(old(r.Snap(s)), d, c, h', r.Snap(s))
    ensures r.asked == old(r.asked) + RestartedAttempts(old(r.Snap(s)), h') && r.p.calls == old(r.p.calls)
    ensures h' == h'.(write := h.write, mid := h.mid, live := h.live, tried := h.tried)
  {
    ghost var t := r.Snap(s);
    var stop1, up1 := RestartAndRecord(r, s, c, d.structureHash, d.usersHash);
    h' := h.(stop1 := stop1, up1 := up1);
    ghost var y := r.Snap(s);
    if !up1 {
      h' := RollbackConfig(r, s, ready, draw, h');
    }
    RestartIs(t, y, d, c, h', r.Snap(s));
    RestartAsks(old(r.asked), t, h');
  }

  lemma RestartIs(t: World, y: World, d: Digest, c: Config, h: History, v: World)
    requires if RestartOk(t, h.stop1, h.up1) then
               v == y == Recorded(AfterRestart(t, h.stop1, h.up1), c, d.structureHash, d.usersHash)
             else y == AfterRestart(t, h.stop1, h.up1) && RolledBack(y, h, v)
    ensures Restarted(t, d, c, h, v)
  {
  }

  lemma RestartAsks(before: seq<Attempt>, t: World, h: History)
    ensures before + RestartedAttempts(t, h) ==
            before + RestartAttempts(t, h.stop1)
            + (if RestartOk(t, h.stop1, h.up1) then [] else RollbackAttempts(t.backup, h))
  {
  }

  method FinishSwitch(r: XrayRunner, s: NodeState, d: Digest, c: Config, client: bool, incremental: bool,
                      prevRuntime: Config,
                      ready: bool, draw: map<string, string>, ghost w: World, ghost h: History)
    returns (ghost h': History)
    requires DeviceEgress.WellFormed(r.e.State()) && DeviceEgress.AreSecrets(draw)
    requires incremental == Incremental(w, d, c) && prevRuntime == w.runtime && h.mid == r.Snap(s)
    requires incremental ==> r.p.users == s.users
    modifies r, r.p, r.e, s
    ensures DeviceEgress.WellFormed(r.e.State())
    ensures Finished(w, d, c, client, h', r.Snap(s))
    ensures r.asked == old(r.asked) + FinishAttempts(h')
    ensures !h'.live && client && incremental ==>
              LiveTopology.GivesUp(prevRuntime, h.mid.runtime) || SomeFailed(old(r.p.calls), r.p.calls)
    ensures h'.write == h.write && h'.mid == h.mid
  {
    var live := TryLive(r, s, d, c, client, incremental, prevRuntime, w);
    h' := h.(live := live, tried := r.Snap(s));
    if live {
      s.SetConfig(c, d.structureHash);
      ApplyShaping(c, s);
    } else {
      h' := RestartOn(r, s, d, c, ready, draw, h');
    }
  }

  /** The configuration could not be written: Xray is stopped rather than left on an old one. */
  method GiveUp(r: XrayRunner, s: NodeState, ghost h: History) returns (ghost h': History)
    modifies r`lost, r`asked, r.p`running, s`restartBlocked
    ensures r.Snap(s) == AfterStop(old(r.Snap(s)).(blocked := true), h'.stop1) && h' == h.(stop1 := h'.stop1)
    ensures r.asked == old(r.asked) + [TriedStop]
  {
    s.restartBlocked := true;
    var stop1 := r.Stop(s);
    h' := h.(stop1 := stop1);
  }

  lemma WriteThenFinish(before: seq<Attempt>, h: History)
    ensures before + SwitchAttempts(h) ==
            before + [TriedWrite] + (if IsDone(h.write) then FinishAttempts(h) else [TriedStop])
  {
  }

  /** What follows the write. */
  method ConcludeSwitch(r: XrayRunner, s: NodeState, d: Digest, c: Config, client: bool, incremental: bool,
                        prevRuntime: Config, write: WriteResult, ready: bool, draw: map<string, string>,
                        ghost w: World, ghost h: History)
    returns (ghost h': History)
    requires DeviceEgress.WellFormed(r.e.State()) && DeviceEgress.AreSecrets(draw)
    requires incremental == Incremental(w, d, c) && prevRuntime == w.runtime && h.mid == r.Snap(s) && h.write == write
    requires incremental ==> r.p.users == s.users
    requires Wrote(w.(shapingOK := false), c, write, h.mid)
    modifies r, r.p, r.e, s
    ensures DeviceEgress.WellFormed(r.e.State())
    ensures Switched(w, d, c, client, h', r.Snap(s)) && h'.write == write && h'.mid == h.mid
    ensures r.asked == old(r.asked) + (if IsDone(write) then FinishAttempts(h') else [TriedStop])
    ensures IsDone(write) && !h'.live && client && incremental ==>
              LiveTopology.GivesUp(prevRuntime, h'.mid.runtime) || SomeFailed(old(r.p.calls), r.p.calls)
  {
    if IsDone(write) {
      h' := FinishSwitch(r, s, d, c, client, incremental, prevRuntime, ready, draw, w, h);
    } else {
      h' := GiveUp(r, s, h);
    }
    SwitchIs(w, d, c, client, h', r.Snap(s));
  }

  method SwitchConfig(r: XrayRunner, s: NodeState, d: Digest, c: Config, client: bool,
                      ready1: bool, draw1: map<string, string>, ready2: bool, draw2: map<string, string>)
    returns (ghost h: History)
    requires DeviceEgress.WellFormed(r.e.State()) && DeviceEgress.AreSecrets(draw1) && DeviceEgress.AreSecrets(draw2)
    requires !s.restartBlocked ==> r.p.users == s.users
    modifies r, r.p, r.e, s
    ensures DeviceEgress.WellFormed(r.e.State())
    ensures Switched(old(r.Snap(s)), d, c, client, h, r.Snap(s))
    ensures r.asked == old(r.asked) + SwitchAttempts(h)
    ensures IsDone(h.write) && !h.live && client && Incremental(old(r.Snap(s)), d, c) ==>
              LiveTopology.GivesUp(old(r.runtime), h.mid.runtime) || SomeFailed(old(r.p.calls), r.p.calls)
  {
    ghost var w := r.Snap(s);
    var incremental := !s.restartBlocked && s.structureHash != "" && d.structureHash != ""
                       && s.structureHash == d.structureHash
                       && d.usersHash != s.usersHash && SameLocalStructure(s.config, c);
    var prevRuntime := r.runtime;
    s.shapingOK := false;
    assert r.Snap(s) == w.(shapingOK := false);
    var write := r.WriteConfig(c, ready1, draw1, s);
    ghost var mid := r.Snap(s);
    h := History(write, mid, false, mid, Graceful, false, Graceful, Unreachable, mid, Graceful, false);
    h := ConcludeSwitch(r, s, d, c, client, incremental, prevRuntime, write, ready2, draw2, w, h);
    WriteThenFinish(old(r.asked), h);
  }

  lemma SwitchIs(w: World, d: Digest, c: Config, client: bool, h: History, v: World)
    requires Wrote(w.(shapingOK := false), c, h.write, h.mid)
    requires if IsDone(h.write) then Finished(w, d, c, client, h, v)
             else v == AfterStop(h.mid.(blocked := true), h.stop1)
    ensures Switched(w, d, c, client, h, v)
  {
  }

  method Reconcile(r: XrayRunner, s: NodeState, d: Digest, client: bool)
    requires r.p.users == s.users
    modifies r.p, s
    ensures Reconciled(old(r.Snap(s)), d, client, r.Snap(s))
    ensures old(s.users) == VlessUsers(old(s.config)) ==> r.p.calls == old(r.p.calls)
  {
    var matched := DigestUsersMatchConfig(d, s.config);
    if !matched {
      return;
    }
    s.structureHash := d.structureHash;
    if d.usersHash != s.usersHash {
      var ok;
      ghost var landed;
      ok, landed := SyncUsers(client, r.p, s, d);
    }
  }

  /** The path of another configuration: it must be the one the digest names, with its users. */
  method SwitchFetched(r: XrayRunner, s: NodeState, d: Digest, client: bool, fetched: Option<Config>,
                       ready1: bool, draw1: map<string, string>, ready2: bool, draw2: map<string, string>,
                       ghost h: History)
    returns (ghost h': History)
    requires DeviceEgress.WellFormed(r.e.State()) && DeviceEgress.AreSecrets(draw1) && DeviceEgress.AreSecrets(draw2)
    requires !s.restartBlocked ==> r.p.users == s.users
    modifies r, r.p, r.e, s
    ensures if fetched == Some(d.config) && Wanted(d) == VlessUsers(d.config) then
              && Switched(old(r.Snap(s)), d, d.config, client, h', r.Snap(s))
              && r.asked == old(r.asked) + SwitchAttempts(h')
            else r.Snap(s) == old(r.Snap(s)) && r.asked == old(r.asked)
  {
    h' := h;
    if fetched == None || fetched.value != d.config {
      return;
    }
    var matched := DigestUsersMatchConfig(d, fetched.value);
    if !matched {
      return;
    }
    h' := SwitchConfig(r, s, d, fetched.value, client, ready1, draw1, ready2, draw2);
  }

  /** One reconciliation, under processMu. */
  method ApplyConfigDigest(r: XrayRunner, s: NodeState, d: Digest, client: bool, cancelled: bool,
                           fetched: Option<Config>,
                           ready1: bool, draw1: map<string, string>, ready2: bool, draw2: map<string, string>)
    returns (ghost h: History)
    requires DeviceEgress.WellFormed(r.e.State()) && DeviceEgress.AreSecrets(draw1) && DeviceEgress.AreSecrets(draw2)
    requires !s.restartBlocked ==> r.p.users == s.users
    modifies r, r.p, r.e, s
    ensures if cancelled then r.Snap(s) == old(r.Snap(s)) else Applied(old(r.Snap(s)), d, client, fetched, h, r.Snap(s))
    ensures old(!s.restartBlocked && d.config == s.config && s.users == VlessUsers(s.config)) ==>
              r.p.calls == old(r.p.calls)
    ensures r.asked ==
            old(r.asked) + if cancelled || !Switches(old(r.Snap(s)), d, fetched) then [] else SwitchAttempts(h)
  {
    ghost var w := r.Snap(s);
    h := History(Unreachable, w, false, w, Graceful, false, Graceful, Unreachable, w, Graceful, false);
    if cancelled {
      return;
    }
    if !s.restartBlocked && d.config == s.config {
      Reconcile(r, s, d, client);
      return;
    }
    h := SwitchFetched(r, s, d, client, fetched, ready1, draw1, ready2, draw2, h);
  }

  /** One supervisor tick; `due` says that the backoff has passed. */
  method Supervise(r: XrayRunner, s: NodeState, cancelled: bool, due: bool) returns (up: bool)
    modifies r`lost, r`asked, r.p, s
    ensures Supervised(old(r.Snap(s)), up, r.Snap(s))
    ensures r.asked ==
            old(r.asked) + if !old(s.restartBlocked) && !cancelled && !old(r.p.running) && due then [TriedStart] else []
  {
    up := false;
    if s.restartBlocked || cancelled || r.p.running || !due {
      return;
    }
    up := r.Start(s);
    if up {
      Record(r, s, s.config, s.structureHash, "");
    }
  }

  /** One binary update, once the new binary is staged. */
  method UpdateXray(r: XrayRunner, s: NodeState, cancelled: bool) returns (out: StopOutcome, up: bool, reshape: bool)
    modifies r`lost, r`asked, r.p, s
    ensures !old(s.restartBlocked) && !cancelled ==>
              && old(r.asked) + RestartAttempts(old(r.Snap(s)), out) <= r.asked
              && (!up && old(r.p.running) && out != Graceful ==> r.asked == old(r.asked) + [TriedStop])
    ensures old(s.restartBlocked) || cancelled ==> r.asked == old(r.asked)
    ensures if cancelled then r.Snap(s) == old(r.Snap(s)) else Updated(old(r.Snap(s)), out, up, reshape, r.Snap(s))
  {
    out, up, reshape := Graceful, false, false;
    if s.restartBlocked || cancelled {
      return;
    }
    var running := r.p.running;
    out := r.Stop(s);
    if running && out != Graceful {
      return;
    }
    var committed, restored := *, *;
    if committed {
      up := r.Start(s);
      reshape := up;
      if !up && restored {
        up := r.Start(s);
      }
    } else {
      up := r.Start(s);
    }
    if up {
      var shaping := s.shapingOK;
      Record(r, s, s.config, s.structureHash, "");
      if !reshape {
        s.shapingOK := shaping;
      }
    }
  }
}
