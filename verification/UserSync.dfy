/** nodeState and syncUsers: moving the VLESS users of a running Xray to those of a
    digest, one RPC at a time (node-agent/cmd/main.go). */
module UserSync {
  import opened Base
  import opened Sets
  import opened DeviceConfig
  import opened XrayProcess

  type Users = map<UserKey, VlessUser>

  datatype DigestUser = DigestUser(inbound: string, uuid: string, email: string, flow: string, level: nat)

  /** What the control plane publishes. The configuration hash is represented by the
      configuration it is the hash of. */
  datatype Digest = Digest(config: Config, structureHash: string, usersHash: string, users: seq<DigestUser>)

  function DigestUsersFrom(users: seq<DigestUser>, i: nat, acc: Users): Users
    requires i <= |users|
    decreases |users| - i
  {
    if i == |users| then acc
    else
      var u := users[i];
      DigestUsersFrom(users, i + 1, acc[UserKey(u.inbound, u.email) := VlessUser(u.uuid, u.email, u.flow, u.level)])
  }

  function Wanted(d: Digest): Users { DigestUsersFrom(d.users, 0, map[]) }

  method UsersFromDigest(d: Digest) returns (out: Users)
    ensures out == Wanted(d)
  {
    out := map[];
    for i := 0 to |d.users|
      invariant DigestUsersFrom(d.users, i, out) == Wanted(d)
    {
      var u := d.users[i];
      out := out[UserKey(u.inbound, u.email) := VlessUser(u.uuid, u.email, u.flow, u.level)];
    }
  }

  predicate IsEntry(users: seq<DigestUser>, n: nat, key: UserKey) {
    n < |users| && users[n].inbound == key.inbound && users[n].email == key.email
  }

  predicate IsLastEntry(users: seq<DigestUser>, n: nat, key: UserKey) {
    IsEntry(users, n, key) && forall m | n < m < |users| :: !IsEntry(users, m, key)
  }

  lemma {:induction false} DigestUsersAre(users: seq<DigestUser>, i: nat, acc: Users, key: UserKey)
    returns (last: Option<nat>)
    requires i <= |users|
    ensures var r := DigestUsersFrom(users, i, acc);
            match last
            case Some(n) =>
              && i <= n && IsLastEntry(users, n, key) && key in r
              && r[key] == VlessUser(users[n].uuid, users[n].email, users[n].flow, users[n].level)
            case None =>
              && (key in r <==> key in acc) && (key in r ==> r[key] == acc[key])
              && forall m: nat | i <= m :: !IsEntry(users, m, key)
    decreases |users| - i
  {
    last := None;
    if i < |users| {
      var u := users[i];
      last := DigestUsersAre(users, i + 1,
                             acc[UserKey(u.inbound, u.email) := VlessUser(u.uuid, u.email, u.flow, u.level)], key);
      if last == None && IsEntry(users, i, key) {
        last := Some(i);
      }
    }
  }

  /** A digest wants under a key its last entry with that inbound and email, with its uuid,
      flow and level; and nobody under any other key. */
  lemma WantedExactly(d: Digest, key: UserKey)
    ensures key in Wanted(d) <==> exists n: nat :: IsEntry(d.users, n, key)
    ensures forall n: nat | IsLastEntry(d.users, n, key) ::
              key in Wanted(d)
              && Wanted(d)[key] == VlessUser(d.users[n].uuid, d.users[n].email, d.users[n].flow, d.users[n].level)
    ensures key in Wanted(d) ==> exists n: nat :: IsLastEntry(d.users, n, key)
  {
    var last := DigestUsersAre(d.users, 0, map[], key);
    if last.Some? {
      forall n: nat | IsLastEntry(d.users, n, key) ensures n == last.value {
      }
    }
  }

  lemma {:induction false} DigestUsersKeyed(users: seq<DigestUser>, i: nat, acc: Users)
    requires i <= |users| && Keyed(acc)
    ensures Keyed(DigestUsersFrom(users, i, acc))
    decreases |users| - i
  {
    if i < |users| {
      var u := users[i];
      DigestUsersKeyed(users, i + 1, acc[UserKey(u.inbound, u.email) := VlessUser(u.uuid, u.email, u.flow, u.level)]);
    }
  }

  /** Every user is stored under its own email. */
  ghost predicate Keyed(users: Users) { forall k | k in users :: users[k].email == k.email }

  method DigestUsersMatchConfig(d: Digest, cfg: Config) returns (r: bool)
    ensures r <==> Wanted(d) == VlessUsers(cfg)
  {
    var want := VlessUsersOfConfig(cfg);
    var got := UsersFromDigest(d);
    if |want| != |got| {
      return false;
    }
    var done: set<UserKey> := {};
    while want.Keys - done != {}
      invariant done <= want.Keys && forall k | k in done :: k in got && got[k] == want[k]
    {
      var key :| key in want.Keys - done;
      if key !in got || got[key] != want[key] {
        return false;
      }
      done := done + {key};
    }
    NothingLeft(want.Keys, done);
    SubsetSize(want.Keys, got.Keys);
    return true;
  }

  // ----- The distance between two user sets, in RPCs -----

  function Changed(have: Users, want: Users): set<UserKey> {
    set k | k in have && k in want && have[k] != want[k]
  }

  /** One removal per extra user, one addition per missing user, both per changed one. */
  function Distance(have: Users, want: Users): nat {
    |have.Keys - want.Keys| + |want.Keys - have.Keys| + 2 * |Changed(have, want)|
  }

  lemma ExtraIsNotChanged(have: Users, want: Users, k: UserKey)
    requires k !in want
    ensures Changed(have - {k}, want) == Changed(have, want)
  {
    forall x ensures x in Changed(have - {k}, want) <==> x in Changed(have, want) {
    }
  }

  lemma RemovingExtra(have: Users, want: Users, k: UserKey)
    requires k in have && k !in want
    ensures Distance(have - {k}, want) == Distance(have, want) - 1
  {
    var extra, extra1 := have.Keys - want.Keys, (have - {k}).Keys - want.Keys;
    assert extra1 == extra - {k} && k in extra;
    assert |extra1| == |extra| - 1;
    assert want.Keys - (have - {k}).Keys == want.Keys - have.Keys;
    ExtraIsNotChanged(have, want, k);
  }

  lemma RemovingChanged(have: Users, want: Users, k: UserKey)
    requires k in have && k in want && have[k] != want[k]
    ensures Distance(have - {k}, want) == Distance(have, want) - 1
  {
    assert (have - {k}).Keys - want.Keys == have.Keys - want.Keys;
    assert want.Keys - (have - {k}).Keys == (want.Keys - have.Keys) + {k};
    assert Changed(have - {k}, want) == Changed(have, want) - {k};
    assert k in Changed(have, want);
  }

  lemma AddingMissing(have: Users, want: Users, k: UserKey)
    requires k !in have && k in want
    ensures Distance(have[k := want[k]], want) == Distance(have, want) - 1
  {
    var more := have[k := want[k]];
    assert more.Keys - want.Keys == have.Keys - want.Keys;
    assert want.Keys - more.Keys == (want.Keys - have.Keys) - {k};
    assert Changed(more, want) == Changed(have, want);
  }

  /** No distance is left exactly when the sets agree. */
  lemma NoDistance(have: Users, want: Users)
    ensures Distance(have, want) == 0 <==> have == want
  {
    if Distance(have, want) == 0 {
      assert have.Keys - want.Keys == {} && want.Keys - have.Keys == {} && Changed(have, want) == {};
      forall k ensures k in have <==> k in want {
        assert k !in have.Keys - want.Keys && k !in want.Keys - have.Keys;
      }
      forall k | k in have ensures have[k] == want[k] {
        assert k !in Changed(have, want);
      }
    }
  }

  // ----- nodeState -----

  class NodeState {
    var restartBlocked: bool
    var config: Config
    var structureHash: string
    var usersHash: string
    var users: Users
    var xrayGen: nat
    var shapingOK: bool

    constructor (cfg: Config)
      ensures !restartBlocked && config == cfg && structureHash == "" && usersHash == "" && users == VlessUsers(cfg)
      ensures xrayGen == 0 && shapingOK
    {
      restartBlocked, config, structureHash, usersHash, users, xrayGen, shapingOK :=
        false, cfg, "", "", VlessUsers(cfg), 0, true;
    }

    method SetConfig(cfg: Config, hash: string)
      modifies `config, `structureHash
      ensures config == cfg && structureHash == hash
    {
      config, structureHash := cfg, hash;
    }

    /** noteXrayRestarted is this with an empty hash. */
    method NoteXrayRestartedWith(hash: string, loaded: Users)
      modifies `xrayGen, `usersHash, `users
      ensures xrayGen == old(xrayGen) + 1 && usersHash == hash && users == loaded
    {
      xrayGen, usersHash, users := xrayGen + 1, hash, loaded;
    }

    method SetUsersIfGen(gen: nat, hash: string, applied: Users) returns (landed: bool)
      modifies `usersHash, `users
      ensures landed == (xrayGen == gen)
      ensures if landed then usersHash == hash && users == applied
              else usersHash == old(usersHash) && users == old(users)
    {
      landed := xrayGen == gen;
      if landed {
        usersHash, users := hash, applied;
      }
    }
  }

  // ----- syncUsers -----

  /** An AddUser call finds its email free on its inbound; a RemoveUser call finds it there. */
  ghost predicate UserCallSafe(c: Call) {
    match c.rpc
    case AddUser(inbound, u) => UserKey(inbound, u.email) !in c.at.users
    case RemoveUser(k) => k in c.at.users
    case _ => false
  }

  function Landed(calls: seq<Call>): nat {
    if calls == [] then 0 else Landed(calls[..|calls| - 1]) + (if calls[|calls| - 1].landed then 1 else 0)
  }

  /** Unless all took effect one did not. */
  lemma {:induction false} SomeNotLanded(calls: seq<Call>) returns (n: nat)
    requires Landed(calls) != |calls|
    ensures n < |calls| && !calls[n].landed && Landed(calls) < |calls|
  {
    var front := calls[..|calls| - 1];
    LandedBound(front);
    n := |calls| - 1;
    if calls[n].landed {
      n := SomeNotLanded(front);
    }
  }

  lemma {:induction false} LandedBound(calls: seq<Call>)
    ensures Landed(calls) <= |calls|
  {
    if calls != [] {
      LandedBound(calls[..|calls| - 1]);
    }
  }

  /** The calls made since `base`, all safe, with `issued` of them and `landed` successful. */
  ghost predicate Since(base: seq<Call>, calls: seq<Call>, landed: nat) {
    && base <= calls
    && (forall n | |base| <= n < |calls| :: UserCallSafe(calls[n]))
    && Landed(calls[|base|..]) == landed
  }

  lemma OneMore(base: seq<Call>, calls: seq<Call>, landed: nat, c: Call)
    requires Since(base, calls, landed) && UserCallSafe(c)
    ensures Since(base, calls + [c], landed + (if c.landed then 1 else 0))
  {
    assert (calls + [c])[|base|..] == calls[|base|..] + [c];
    assert (calls[|base|..] + [c])[..|calls[|base|..]|] == calls[|base|..];
  }

  /** The state of a sync after some RPCs, `landed` of which took effect: the process runs
      `applied`, and `ok` says whether all of them did. */
  ghost predicate Progress(p0: Proc, base: seq<Call>, applied: Users, landed: nat, now: Proc, calls: seq<Call>,
                           ok: bool) {
    && now == p0.(users := applied)
    && Since(base, calls, landed)
    && landed <= |calls| - |base|
    && (ok <==> |calls| - |base| == landed)
  }

  method RemoveStale(p: XrayProcess, live: Users, want: Users) returns (applied: Users, ok: bool, ghost landed: nat)
    requires p.users == live
    modifies p
    ensures Progress(old(p.Now()), old(p.calls), applied, landed, p.Now(), p.calls, ok)
    ensures Distance(applied, want) + landed == Distance(live, want)
    ensures ok ==> applied.Keys <= want.Keys
    ensures live == want ==> applied == live && p.calls == old(p.calls)
  {
    applied, ok, landed := live, true, 0;
    var done: set<UserKey> := {};
    assert p.calls[|p.calls|..] == [];
    while live.Keys - done != {}
      invariant done <= live.Keys
      invariant Progress(old(p.Now()), old(p.calls), applied, landed, p.Now(), p.calls, ok)
      invariant Distance(applied, want) + landed == Distance(live, want)
      invariant applied.Keys <= live.Keys && live.Keys - done <= applied.Keys
      invariant ok ==> applied.Keys * done <= want.Keys
      invariant live == want ==> applied == live && p.calls == old(p.calls)
    {
      var key :| key in live.Keys - done;
      done := done + {key};
      if key !in want {
        ghost var calls, at := p.calls, p.Now();
        var removed := p.RemoveVLESSUser(key);
        OneMore(old(p.calls), calls, landed, Call(RemoveUser(key), at, removed));
        if removed {
          RemovingExtra(applied, want, key);
          applied, landed := applied - {key}, landed + 1;
        } else {
          ok := false;
        }
      }
    }
    NothingLeft(live.Keys, done);
  }

  /** Removes the old credentials of a changed user. */
  method Drop(p: XrayProcess, key: UserKey, want: Users, applied0: Users, ok0: bool, ghost landed0: nat, ghost p0: Proc,
              ghost base: seq<Call>)
    returns (applied: Users, ok: bool, ghost landed: nat)
    requires key in want && key in applied0 && applied0[key] != want[key]
    requires Progress(p0, base, applied0, landed0, p.Now(), p.calls, ok0)
    modifies p
    ensures Progress(p0, base, applied, landed, p.Now(), p.calls, ok0 && ok)
    ensures Distance(applied, want) + landed == Distance(applied0, want) + landed0
    ensures applied == if ok then applied0 - {key} else applied0
  {
    applied, landed := applied0, landed0;
    ghost var calls, at := p.calls, p.Now();
    ok := p.RemoveVLESSUser(key);
    OneMore(base, calls, landed, Call(RemoveUser(key), at, ok));
    if ok {
      RemovingChanged(applied, want, key);
      applied, landed := applied - {key}, landed + 1;
    }
  }

  /** Adds a wanted user whose email is free. */
  method Insert(p: XrayProcess, key: UserKey, want: Users, applied0: Users, ok0: bool, ghost landed0: nat,
                ghost p0: Proc, ghost base: seq<Call>)
    returns (applied: Users, ok: bool, ghost landed: nat)
    requires key in want && key !in applied0 && want[key].email == key.email
    requires Progress(p0, base, applied0, landed0, p.Now(), p.calls, ok0)
    modifies p
    ensures Progress(p0, base, applied, landed, p.Now(), p.calls, ok0 && ok)
    ensures Distance(applied, want) + landed == Distance(applied0, want) + landed0
    ensures applied == if ok then applied0[key := want[key]] else applied0
  {
    applied, landed := applied0, landed0;
    ghost var calls, at := p.calls, p.Now();
    ok := p.AddVLESSUser(key.inbound, want[key]);
    OneMore(base, calls, landed, Call(AddUser(key.inbound, want[key]), at, ok));
    if ok {
      AddingMissing(applied, want, key);
      applied, landed := applied[key := want[key]], landed + 1;
    }
  }

  /** Brings one wanted user in: nothing to do, an addition, or a removal and an addition. */
  method ApplyUser(p: XrayProcess, key: UserKey, want: Users, applied0: Users, ok0: bool, ghost landed0: nat,
                   ghost p0: Proc, ghost base: seq<Call>)
    returns (applied: Users, ok: bool, ghost landed: nat)
    requires key in want && want[key].email == key.email
    requires Progress(p0, base, applied0, landed0, p.Now(), p.calls, ok0)
    modifies p
    ensures Progress(p0, base, applied, landed, p.Now(), p.calls, ok)
    ensures Distance(applied, want) + landed == Distance(applied0, want) + landed0
    ensures ok ==> ok0 && applied == applied0[key := want[key]]
    ensures key in applied0 && applied0[key] == want[key] ==> applied == applied0 && p.calls == old(p.calls)
  {
    applied, ok, landed := applied0, ok0, landed0;
    if key in applied && applied[key] == want[key] {
      assert applied0 == applied0[key := want[key]];
      return;
    }
    var step := true;
    if key in applied {
      applied, step, landed := Drop(p, key, want, applied, ok, landed, p0, base);
      ok := ok && step;
      if !step {
        return;
      }
    }
    assert applied[key := want[key]] == applied0[key := want[key]];
    applied, step, landed := Insert(p, key, want, applied, ok, landed, p0, base);
    ok := ok && step;
  }

  /** While all went well, only wanted users run, and those in `done` as wanted. */
  ghost predicate Caught(ok: bool, applied: Users, want: Users, done: set<UserKey>) {
    ok ==> applied.Keys <= want.Keys && done <= applied.Keys && forall k | k in done :: applied[k] == want[k]
  }

  lemma CaughtMore(before: Users, want: Users, done: set<UserKey>, key: UserKey)
    requires Caught(true, before, want, done) && done <= want.Keys && key in want
    ensures Caught(true, before[key := want[key]], want, done + {key})
  {
  }

  method ApplyNext(p: XrayProcess, want: Users, done: set<UserKey>, applied0: Users, ok0: bool, ghost landed0: nat,
                   ghost p0: Proc, ghost base: seq<Call>)
    returns (done': set<UserKey>, applied: Users, ok: bool, ghost landed: nat)
    requires Keyed(want) && Progress(p0, base, applied0, landed0, p.Now(), p.calls, ok0)
    requires done <= want.Keys && want.Keys - done != {} && Caught(ok0, applied0, want, done)
    modifies p
    ensures Progress(p0, base, applied, landed, p.Now(), p.calls, ok)
    ensures Distance(applied, want) + landed == Distance(applied0, want) + landed0
    ensures done < done' <= want.Keys && Caught(ok, applied, want, done')
    ensures applied0 == want ==> applied == want && p.calls == old(p.calls)
  {
    var key :| key in want.Keys - done;
    applied, ok, landed := ApplyUser(p, key, want, applied0, ok0, landed0, p0, base);
    if ok {
      CaughtMore(applied0, want, done, key);
    }
    done' := done + {key};
  }

  method ApplyWanted(p: XrayProcess, want: Users, applied0: Users, ok0: bool, ghost landed0: nat, ghost p0: Proc,
                     ghost base: seq<Call>)
    returns (applied: Users, ok: bool, ghost landed: nat)
    requires Keyed(want) && Progress(p0, base, applied0, landed0, p.Now(), p.calls, ok0)
    requires ok0 ==> applied0.Keys <= want.Keys
    modifies p
    ensures Progress(p0, base, applied, landed, p.Now(), p.calls, ok)
    ensures Distance(applied, want) + landed == Distance(applied0, want) + landed0
    ensures ok ==> applied == want
    ensures applied0 == want ==> applied == want && p.calls == old(p.calls)
  {
    applied, ok, landed := applied0, ok0, landed0;
    var done: set<UserKey> := {};
    while want.Keys - done != {}
      invariant Progress(p0, base, applied, landed, p.Now(), p.calls, ok)
      invariant Distance(applied, want) + landed == Distance(applied0, want) + landed0
      invariant done <= want.Keys && Caught(ok, applied, want, done)
      invariant applied0 == want ==> applied == want && p.calls == old(p.calls)
      decreases want.Keys - done
    {
      done, applied, ok, landed := ApplyNext(p, want, done, applied, ok, landed, p0, base);
    }
    if ok {
      CaughtAll(applied, want, done);
    }
  }

  lemma CaughtAll(applied: Users, want: Users, done: set<UserKey>)
    requires Caught(true, applied, want, done) && done <= want.Keys && want.Keys - done == {}
    ensures applied == want
  {
    NothingLeft(want.Keys, done);
  }

  method SyncProcess(p: XrayProcess, live: Users, want: Users) returns (applied: Users, ok: bool, ghost landed: nat)
    requires p.users == live && Keyed(want)
    modifies p
    ensures Progress(old(p.Now()), old(p.calls), applied, landed, p.Now(), p.calls, ok)
    ensures Distance(applied, want) + landed == Distance(live, want)
    ensures ok ==> applied == want
    ensures live == want ==> applied == want && p.calls == old(p.calls)
  {
    ghost var p0, base := p.Now(), p.calls;
    applied, ok, landed := RemoveStale(p, live, want);
    applied, ok, landed := ApplyWanted(p, want, applied, ok, landed, p0, base);
  }

  /** MAIN RESULT. Started on a node state that lists the process's users: the two agree
      again afterwards, whatever failed; every RPC that took effect, and no other, brought
      the process one unit closer to the digest; no email is added where it already is;
      success means exactly the digest's users, at the cost of one RPC per unit of the
      distance there was. */
  method SyncUsers(client: bool, p: XrayProcess, s: NodeState, d: Digest) returns (ok: bool, ghost landed: nat)
    requires p.users == s.users
    modifies p, s`users, s`usersHash
    ensures !client ==>
              !ok && landed == 0 && p.calls == old(p.calls) && s.users == old(s.users)
              && s.usersHash == old(s.usersHash)
    ensures p.Now() == old(p.Now()).(users := s.users)
    ensures old(p.calls) <= p.calls && Landed(p.calls[|old(p.calls)|..]) == landed
    ensures forall n | |old(p.calls)| <= n < |p.calls| :: UserCallSafe(p.calls[n])
    ensures Distance(s.users, Wanted(d)) + landed == Distance(old(s.users), Wanted(d))
    ensures ok ==> s.users == Wanted(d) && s.usersHash == d.usersHash
    ensures ok ==> |p.calls| - |old(p.calls)| == Distance(old(s.users), Wanted(d))
    ensures client && !ok ==> s.usersHash == ""
    ensures client ==> (ok <==> landed == |p.calls| - |old(p.calls)|)
    ensures client && old(s.users) == Wanted(d) ==> ok && p.calls == old(p.calls)
  {
    landed := 0;
    if !client {
      assert p.calls[|p.calls|..] == [];
      return false, landed;
    }
    var want := UsersFromDigest(d);
    DigestUsersKeyed(d.users, 0, map[]);
    var gen := s.xrayGen;
    var applied;
    applied, ok, landed := SyncProcess(p, s.users, want);
    if !ok {
      var kept := s.SetUsersIfGen(gen, "", applied);
      return;
    }
    NoDistance(want, want);
    ok := s.SetUsersIfGen(gen, d.usersHash, applied);
  }
}
