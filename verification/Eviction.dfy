/** The eviction of a credential from the whole fleet: who has acknowledged, when that
    confirms, and how long the credential stays banned
    (api-server/internal/database/schema_uuid_eviction.go,
    api-server/internal/scheduler/uuid_eviction.go). */
module Eviction {
  import opened Base

  type Id = string

  datatype Row = Row(epoch: Id, required: seq<Id>, confirmed: bool, confirmedAt: int)

  /** devices (owner and evicted_until), uuid_evictions, uuid_eviction_acknowledgments. */
  datatype Db = Db(owner: map<Id, Id>, bannedUntil: map<Id, int>, rows: map<Id, Row>, acks: set<(Id, Id)>)

  /** 9999-12-31, and the cooldown after a confirmation, in seconds. */
  const FOREVER: int := 253402214400
  const COOLDOWN: int := 600

  predicate AllAcked(row: Row, acks: set<(Id, Id)>) {
    forall n | n in row.required :: (row.epoch, n) in acks
  }

  /** Constraints of the tables: a snapshot of nodes is not empty, epochs are unique, and
      acknowledgments name an epoch in use. */
  ghost predicate Valid(db: Db) {
    && (forall d | d in db.rows :: db.rows[d].required != [])
    && (forall d, e | d in db.rows && e in db.rows && db.rows[d].epoch == db.rows[e].epoch :: d == e)
    && (forall a | a in db.acks :: InUse(db, a.0))
  }

  ghost predicate InUse(db: Db, epoch: Id) { exists d :: d in db.rows && db.rows[d].epoch == epoch }

  /** Confirmed means acknowledged by every required node in that very epoch. */
  ghost predicate StatusIsTrue(db: Db) {
    forall d | d in db.rows :: db.rows[d].confirmed <==> AllAcked(db.rows[d], db.acks)
  }

  /** The credential stays banned while its eviction is pending, and at least until the
      cooldown after the confirmation ends. */
  ghost predicate BanKept(db: Db) {
    forall d | d in db.rows :: BanKeptFor(db, d)
  }

  ghost predicate BanKeptFor(db: Db, d: Id)
    requires d in db.rows
  {
    d in db.bannedUntil
    && (db.bannedUntil[d] == FOREVER
        || (db.rows[d].confirmed && db.bannedUntil[d] >= db.rows[d].confirmedAt + COOLDOWN))
  }

  // ----- The steps -----

  datatype Step =
    | Begin(user: Id, target: Id, expected: seq<Id>, exits: int, epoch: Id, at: int)
    | Acknowledge(device: Id, claimed: Id, node: Id, when: int)
    | Complete(completed: Id, now: int)
    | Retire(retired: Id)
    | Terminate(terminated: Id, until: int)
    | AddDevice(added: Id, addedTo: Id)

  datatype Error = IncompleteFleet | PendingEviction | NotCurrentEpoch | NodeNotRequired

  predicate Pending(db: Db, user: Id) {
    exists d | d in db.rows :: d in db.owner && db.owner[d] == user && !db.rows[d].confirmed
  }

  function BeginError(db: Db, user: Id, target: Id, expected: seq<Id>, exits: int, at: int): Option<Error> {
    if expected == [] then Some(IncompleteFleet)
    else if !(target in db.owner && db.owner[target] == user)
         || (target in db.bannedUntil && db.bannedUntil[target] > at) then Some(PendingEviction)
    else if Pending(db, user) then Some(PendingEviction)
    else if exits != |expected| then Some(IncompleteFleet)
    else None
  }

  function Without(acks: set<(Id, Id)>, epochs: set<Id>): set<(Id, Id)> {
    set a | a in acks && a.0 !in epochs
  }

  function EpochOf(db: Db, device: Id): set<Id> {
    if device in db.rows then {db.rows[device].epoch} else {}
  }

  function AckError(db: Db, device: Id, epoch: Id, node: Id): Option<Error> {
    if device !in db.rows || db.rows[device].epoch != epoch then Some(NotCurrentEpoch)
    else if node !in db.rows[device].required then Some(NodeNotRequired)
    else None
  }

  /** An acknowledgment accepted at `when`. */
  function Acknowledged(db: Db, device: Id, node: Id, when: int): Db
    requires device in db.rows
  {
    var row := db.rows[device];
    var acks := db.acks + {(row.epoch, node)};
    db.(acks := acks,
        rows := if row.confirmed || !AllAcked(row, acks) then db.rows
                else db.rows[device := row.(confirmed := true, confirmedAt := when)])
  }

  /** The user's devices whose confirmed eviction has not started its cooldown. */
  function Cooling(db: Db, user: Id): set<Id> {
    set d | d in db.rows && d in db.owner && db.owner[d] == user
            && db.rows[d].confirmed && d in db.bannedUntil && db.bannedUntil[d] == FOREVER
  }

  function CooldownStarted(db: Db, user: Id): Db {
    db.(bannedUntil := db.bannedUntil + map d | d in Cooling(db, user) :: db.rows[d].confirmedAt + COOLDOWN)
  }

  /** The user's devices whose confirmed eviction is over. */
  function Expired(db: Db, user: Id, now: int): set<Id> {
    set d | d in db.rows && d in db.owner && db.owner[d] == user
            && db.rows[d].confirmed && d in db.bannedUntil && db.bannedUntil[d] <= now
  }

  function RowsDeleted(db: Db, gone: set<Id>): Db {
    db.(rows := db.rows - gone, acks := Without(db.acks, set d | d in gone && d in db.rows :: db.rows[d].epoch))
  }

  function After(db: Db, s: Step): Db {
    match s
    case Begin(user, target, expected, exits, epoch, at) =>
      if BeginError(db, user, target, expected, exits, at).Some? then db
      else
        db.(bannedUntil := db.bannedUntil[target := FOREVER],
            acks := Without(db.acks, EpochOf(db, target)),
            rows := db.rows[target := Row(epoch, expected, false, 0)])
    case Acknowledge(device, epoch, node, when) =>
      if AckError(db, device, epoch, node).Some? then db else Acknowledged(db, device, node, when)
    case Complete(user, now) =>
      var d := CooldownStarted(db, user);
      RowsDeleted(d, Expired(d, user, now))
    case Retire(device) => if device in db.owner then db.(bannedUntil := db.bannedUntil[device := FOREVER]) else db
    case Terminate(device, until) =>
      if device in db.owner then db.(bannedUntil := db.bannedUntil[device := until]) else db
    case AddDevice(device, user) => if device in db.owner then db else db.(owner := db.owner[device := user])
  }

  /** A generated epoch is new. */
  ghost predicate NewEpoch(db: Db, s: Step) { s.Begin? ==> !InUse(db, s.epoch) }

  /** A timed termination does not shorten the ban of an open eviction. */
  predicate Harmless(db: Db, s: Step) {
    s.Terminate? && s.terminated in db.owner && s.terminated in db.rows ==>
      s.until == FOREVER
      || (db.rows[s.terminated].confirmed && s.until >= db.rows[s.terminated].confirmedAt + COOLDOWN)
  }

  // ----- What every step keeps -----

  lemma BeginKeeps(db: Db, s: Step)
    requires s.Begin? && NewEpoch(db, s) && Valid(db) && StatusIsTrue(db)
    ensures var d := After(db, s); Valid(d) && StatusIsTrue(d)
  {
    var d := After(db, s);
    if d != db {
      forall a | a in d.acks ensures InUse(d, a.0) && a.0 != s.epoch {
        var e :| e in db.rows && db.rows[e].epoch == a.0;
        assert e != s.target;
        assert d.rows[e] == db.rows[e];
      }
      forall e | e in d.rows ensures d.rows[e].confirmed <==> AllAcked(d.rows[e], d.acks) {
        if e == s.target {
          assert s.expected[0] in s.expected && (s.epoch, s.expected[0]) !in d.acks;
        } else {
          assert d.rows[e] == db.rows[e] && d.rows[e].epoch !in EpochOf(db, s.target);
        }
      }
    }
  }

  lemma AcknowledgeKeeps(db: Db, s: Step)
    requires s.Acknowledge? && Valid(db) && StatusIsTrue(db)
    ensures var d := After(db, s); Valid(d) && StatusIsTrue(d)
  {
    var d := After(db, s);
    if d != db {
      forall a | a in d.acks ensures InUse(d, a.0) {
        var e :| e in db.rows && db.rows[e].epoch == a.0;
        assert d.rows[e].epoch == a.0;
      }
      forall e | e in d.rows ensures d.rows[e].confirmed <==> AllAcked(d.rows[e], d.acks) {
        if e != s.device {
          assert d.rows[e].epoch != db.rows[s.device].epoch;
        }
      }
    }
  }

  lemma DeletingKeeps(db: Db, gone: set<Id>)
    requires Valid(db) && StatusIsTrue(db)
    ensures var d := RowsDeleted(db, gone); Valid(d) && StatusIsTrue(d)
  {
    var d := RowsDeleted(db, gone);
    forall a | a in d.acks ensures InUse(d, a.0) {
      var e :| e in db.rows && db.rows[e].epoch == a.0;
      assert e !in gone;
      assert e in d.rows && d.rows[e].epoch == a.0;
    }
    forall e | e in d.rows ensures d.rows[e].confirmed <==> AllAcked(d.rows[e], d.acks) {
      assert forall x | x in gone && x in db.rows :: db.rows[x].epoch != db.rows[e].epoch;
    }
  }

  lemma BanDoesNotMatter(db: Db, bannedUntil: map<Id, int>)
    requires Valid(db) && StatusIsTrue(db)
    ensures var d := db.(bannedUntil := bannedUntil); Valid(d) && StatusIsTrue(d)
  {
    var d := db.(bannedUntil := bannedUntil);
    forall a | a in d.acks ensures InUse(d, a.0) {
      assert InUse(db, a.0);
    }
  }

  lemma OwnersDoNotMatter(db: Db, owner: map<Id, Id>)
    requires Valid(db) && StatusIsTrue(db)
    ensures var d := db.(owner := owner); Valid(d) && StatusIsTrue(d)
  {
    var d := db.(owner := owner);
    forall a | a in d.acks ensures InUse(d, a.0) {
      assert InUse(db, a.0);
    }
  }

  lemma StatusStaysTrue(db: Db, s: Step)
    requires Valid(db) && StatusIsTrue(db) && NewEpoch(db, s)
    ensures var d := After(db, s); Valid(d) && StatusIsTrue(d)
  {
    match s
    case Begin(_, _, _, _, _, _) => BeginKeeps(db, s);
    case Acknowledge(_, _, _, _) => AcknowledgeKeeps(db, s);
    case Complete(user, now) =>
      var d := CooldownStarted(db, user);
      BanDoesNotMatter(db, d.bannedUntil);
      DeletingKeeps(d, Expired(d, user, now));
    case Retire(_) => BanDoesNotMatter(db, After(db, s).bannedUntil);
    case Terminate(_, _) => BanDoesNotMatter(db, After(db, s).bannedUntil);
    case AddDevice(_, _) => OwnersDoNotMatter(db, After(db, s).owner);
  }

  /** A step keeps every ban that was kept exactly when it is not a termination that
      shortens one. */
  lemma BanStaysKept(db: Db, s: Step)
    requires BanKept(db)
    ensures BanKept(After(db, s)) <==> Harmless(db, s)
  {
    var d := After(db, s);
    forall e | e in d.rows && !(s.Terminate? && e == s.terminated && e in db.owner) ensures BanKeptFor(d, e) {
      assert e in db.rows ==> BanKeptFor(db, e);
    }
    if s.Terminate? && s.terminated in db.owner && s.terminated in db.rows {
      assert Harmless(db, s) <==> BanKeptFor(d, s.terminated);
    }
  }

  // ----- Runs -----

  ghost predicate IsRun(run: seq<Db>, steps: seq<Step>) {
    && |run| == |steps| + 1
    && forall k | 0 <= k < |steps| :: NewEpoch(run[k], steps[k]) && run[k + 1] == After(run[k], steps[k])
  }

  lemma RunPrefix(run: seq<Db>, steps: seq<Step>, n: nat)
    requires IsRun(run, steps) && n <= |steps|
    ensures IsRun(run[..n + 1], steps[..n])
  {
  }

  /** MAIN RESULT. In every reachable state an eviction is confirmed exactly when every
      required node has acknowledged that very epoch; and if no timed termination of the run
      shortened one, no ban ends before its eviction is confirmed and the cooldown is over. */
  lemma {:induction false} RunsStayTrue(run: seq<Db>, steps: seq<Step>)
    requires IsRun(run, steps) && Valid(run[0]) && StatusIsTrue(run[0])
    ensures var d := run[|steps|]; Valid(d) && StatusIsTrue(d)
    ensures BanKept(run[0]) && (forall k | 0 <= k < |steps| :: Harmless(run[k], steps[k])) ==> BanKept(run[|steps|])
    decreases |steps|
  {
    var n := |steps|;
    if n > 0 {
      RunPrefix(run, steps, n - 1);
      RunsStayTrue(run[..n], steps[..n - 1]);
      assert run[n] == After(run[n - 1], steps[n - 1]);
      StatusStaysTrue(run[n - 1], steps[n - 1]);
      if BanKept(run[n - 1]) {
        BanStaysKept(run[n - 1], steps[n - 1]);
      }
    }
  }

  /** The node acknowledged the device's epoch in some step of the run. */
  ghost predicate HasAcknowledged(steps: seq<Step>, epoch: Id, node: Id) {
    exists k | 0 <= k < |steps| :: steps[k].Acknowledge? && steps[k].claimed == epoch && steps[k].node == node
  }

  /** Acknowledgments are only ever written for a node's own call with that epoch. */
  lemma {:induction false} AcksComeFromCalls(run: seq<Db>, steps: seq<Step>, a: (Id, Id))
    requires IsRun(run, steps) && a in run[|steps|].acks && a !in run[0].acks
    ensures HasAcknowledged(steps, a.0, a.1)
    decreases |steps|
  {
    var n := |steps|;
    if n > 0 {
      var last := steps[n - 1];
      assert run[n] == After(run[n - 1], last);
      if a in run[n - 1].acks {
        RunPrefix(run, steps, n - 1);
        AcksComeFromCalls(run[..n], steps[..n - 1], a);
        var k :| 0 <= k < n - 1 && steps[..n - 1][k].Acknowledge? && steps[..n - 1][k].claimed == a.0
            && steps[..n - 1][k].node == a.1;
        assert steps[k] == steps[..n - 1][k];
      } else {
        assert last.Acknowledge? && last.claimed == a.0 && last.node == a.1;
      }
    }
  }

  /** An eviction confirmed in an epoch begun during the run has been acknowledged, in that
      epoch and by its own call, by each required node. */
  lemma ConfirmedWasAcknowledged(run: seq<Db>, steps: seq<Step>, device: Id, node: Id)
    requires IsRun(run, steps) && Valid(run[0]) && StatusIsTrue(run[0])
    requires var rows := run[|steps|].rows; device in rows && rows[device].confirmed && node in rows[device].required
    requires !InUse(run[0], run[|steps|].rows[device].epoch)
    ensures HasAcknowledged(steps, run[|steps|].rows[device].epoch, node)
  {
    RunsStayTrue(run, steps);
    var row := run[|steps|].rows[device];
    assert (row.epoch, node) in run[|steps|].acks;
    AcksComeFromCalls(run, steps, (row.epoch, node));
  }

  // ----- Any number of acknowledgments, in any order -----

  datatype Call = Call(device: Id, epoch: Id, node: Id, when: int)

  function StepOf(c: Call): Step { Acknowledge(c.device, c.epoch, c.node, c.when) }

  function AfterCalls(db: Db, calls: seq<Call>): Db {
    if calls == [] then db else After(AfterCalls(db, calls[..|calls| - 1]), StepOf(calls[|calls| - 1]))
  }

  /** Calls change acknowledgments and statuses only, and add exactly the accepted pairs. */
  ghost predicate CallsDid(db: Db, calls: seq<Call>, d: Db) {
    && d.owner == db.owner && d.bannedUntil == db.bannedUntil && d.rows.Keys == db.rows.Keys
    && (forall e | e in db.rows :: d.rows[e].epoch == db.rows[e].epoch && d.rows[e].required == db.rows[e].required)
    && forall a :: a in d.acks <==> a in db.acks || Records(db, calls, a)
  }

  ghost predicate Records(db: Db, calls: seq<Call>, a: (Id, Id)) {
    exists c | c in calls :: AckError(db, c.device, c.epoch, c.node) == None && a == (c.epoch, c.node)
  }

  lemma OneMoreCall(db: Db, c: Db, d: Db, calls: seq<Call>)
    requires calls != [] && CallsDid(db, calls[..|calls| - 1], c) && d == After(c, StepOf(calls[|calls| - 1]))
    ensures CallsDid(db, calls, d)
  {
    var front, last := calls[..|calls| - 1], calls[|calls| - 1];
    assert calls == front + [last];
    assert AckError(c, last.device, last.epoch, last.node) == AckError(db, last.device, last.epoch, last.node);
    forall a ensures a in d.acks <==> a in db.acks || Records(db, calls, a) {
      assert Records(db, calls, a) <==>
             || Records(db, front, a)
             || (AckError(db, last.device, last.epoch, last.node) == None && a == (last.epoch, last.node));
    }
  }

  lemma {:induction false} CallsAdd(db: Db, calls: seq<Call>)
    requires Valid(db) && StatusIsTrue(db)
    ensures var d := AfterCalls(db, calls); CallsDid(db, calls, d) && Valid(d) && StatusIsTrue(d)
    decreases |calls|
  {
    if calls != [] {
      var front := calls[..|calls| - 1];
      CallsAdd(db, front);
      StatusStaysTrue(AfterCalls(db, front), StepOf(calls[|calls| - 1]));
      OneMoreCall(db, AfterCalls(db, front), AfterCalls(db, calls), calls);
    }
  }

  /** MAIN RESULT. Whatever calls come in whatever order, repeated, stale or by strangers: an
      eviction ends up confirmed exactly when every required node had acknowledged its epoch
      or is among the callers with it. */
  lemma LastRequiredCallConfirms(db: Db, calls: seq<Call>, device: Id)
    requires Valid(db) && StatusIsTrue(db) && device in db.rows
    ensures var row := db.rows[device];
            device in AfterCalls(db, calls).rows
            && (AfterCalls(db, calls).rows[device].confirmed <==>
                  forall n | n in row.required ::
                    (row.epoch, n) in db.acks || exists c | c in calls ::
                        c.device == device && c.epoch == row.epoch && c.node == n)
  {
    var row, d := db.rows[device], AfterCalls(db, calls);
    CallsAdd(db, calls);
    forall n | n in row.required
      ensures (row.epoch, n) in d.acks <==>
              (row.epoch, n) in db.acks || exists c | c in calls ::
                  c.device == device && c.epoch == row.epoch && c.node == n
    {
      if c :| c in calls && c.device == device && c.epoch == row.epoch && c.node == n {
        assert AckError(db, c.device, c.epoch, c.node) == None;
        assert Records(db, calls, (row.epoch, n));
      }
    }
  }

  /** Calls that come in another order, or twice, leave the same acknowledgments and the same
      statuses. */
  lemma CallOrderIsIrrelevant(db: Db, calls: seq<Call>, others: seq<Call>)
    requires Valid(db) && StatusIsTrue(db) && forall c :: c in calls <==> c in others
    ensures var d, e := AfterCalls(db, calls), AfterCalls(db, others);
            && d.acks == e.acks && d.rows.Keys == e.rows.Keys
            && forall x | x in d.rows :: d.rows[x].confirmed == e.rows[x].confirmed
  {
    var d, e := AfterCalls(db, calls), AfterCalls(db, others);
    CallsAdd(db, calls);
    CallsAdd(db, others);
    forall a ensures a in d.acks <==> a in e.acks {
      assert Records(db, calls, a) <==> Records(db, others, a);
    }
    forall x | x in d.rows ensures d.rows[x].confirmed == e.rows[x].confirmed {
      assert AllAcked(d.rows[x], d.acks) <==> AllAcked(e.rows[x], e.acks);
    }
  }

  /** An acknowledgment changes nothing exactly when it is refused or repeats one. */
  lemma NoOpCalls(db: Db, c: Call)
    requires Valid(db) && StatusIsTrue(db)
    ensures After(db, StepOf(c)) == db <==>
              AckError(db, c.device, c.epoch, c.node).Some? || (c.epoch, c.node) in db.acks
  {
    if AckError(db, c.device, c.epoch, c.node) == None && (c.epoch, c.node) in db.acks {
      assert db.acks + {(c.epoch, c.node)} == db.acks;
    }
  }

  // ----- The end of an eviction -----

  /** A row disappears only if it was confirmed, its cooldown is over and the credential is no
      longer banned. */
  lemma CompletionIsEarned(db: Db, user: Id, now: int, device: Id)
    requires BanKept(db) && now < FOREVER && device in db.rows
    ensures device !in After(db, Complete(user, now)).rows ==>
              db.rows[device].confirmed && db.rows[device].confirmedAt + COOLDOWN <= now
  {
    assert BanKeptFor(db, device);
  }

  /** When the device's ban ends once completions have run: 600 s after the confirmation, unless
      a term was set already. */
  function EndOfBan(db: Db, device: Id): int
    requires device in db.rows && device in db.bannedUntil
  {
    if db.rows[device].confirmed && db.bannedUntil[device] == FOREVER then db.rows[device].confirmedAt + 600
    else db.bannedUntil[device]
  }

  ghost predicate Finishes(db: Db, user: Id, device: Id)
    requires device in db.rows
  {
    device in db.owner && db.owner[device] == user && db.rows[device].confirmed && device in db.bannedUntil
  }

  /** A completion for a user ends the eviction of exactly the devices whose confirmation and
      cooldown are behind, sets the end of the ban of every confirmed one, and changes nothing
      else of the device. */
  lemma CompletionExactly(db: Db, user: Id, now: int, device: Id)
    requires device in db.rows
    ensures var d := After(db, Complete(user, now));
            && (device !in d.rows <==> Finishes(db, user, device) && EndOfBan(db, device) <= now)
            && (device in d.rows ==> d.rows[device] == db.rows[device])
            && (device in db.bannedUntil ==>
                  device in d.bannedUntil
                  && d.bannedUntil[device] == if Finishes(db, user, device) then EndOfBan(db, device)
                     else db.bannedUntil[device])
  {
  }

  /** Its acknowledgments go with it, and no others. */
  lemma CompletionClears(db: Db, user: Id, now: int, device: Id, node: Id)
    requires Valid(db) && device in db.rows
    ensures var d, epoch := After(db, Complete(user, now)), db.rows[device].epoch;
            (epoch, node) in d.acks <==> (epoch, node) in db.acks && device in d.rows
  {
    CompletionExactly(db, user, now, device);
  }

  // ----- The beginning of an eviction -----

  /** An eviction begins if and only if the snapshot is the whole fleet and not empty, the device
      is the user's and not banned, and no other eviction of the user is pending; it bans the
      device for good, asks every node of the snapshot anew, and changes no other device. */
  lemma BeginsExactly(db: Db, user: Id, target: Id, expected: seq<Id>, exits: int, epoch: Id, at: int)
    requires Valid(db) && !InUse(db, epoch)
    ensures var d := After(db, Begin(user, target, expected, exits, epoch, at));
            var begins := && expected != [] && exits == |expected|
                          && target in db.owner && db.owner[target] == user
                          && (target in db.bannedUntil ==> db.bannedUntil[target] <= at)
                          && forall e | e in db.rows && e in db.owner && db.owner[e] == user :: db.rows[e].confirmed;
            && (BeginError(db, user, target, expected, exits, at) == None <==> begins)
            && (!begins ==> d == db)
            && (begins ==>
                  && d.owner == db.owner && d.bannedUntil == db.bannedUntil[target := FOREVER]
                  && d.rows == db.rows[target := Row(epoch, expected, false, 0)]
                  && (forall n :: (epoch, n) !in d.acks)
                  && forall e, n | e in db.rows && e != target ::
                       (db.rows[e].epoch, n) in d.acks <==> (db.rows[e].epoch, n) in db.acks)
  {
    var d := After(db, Begin(user, target, expected, exits, epoch, at));
    forall n ensures (epoch, n) !in d.acks || d == db {
      assert (epoch, n) in db.acks ==> InUse(db, epoch);
    }
  }

  /** Every eviction is of a device somebody owns, and no user has two pending. */
  ghost predicate OnePending(db: Db) {
    && db.rows.Keys <= db.owner.Keys
    && forall d, e | d in db.rows && e in db.rows && db.owner[d] == db.owner[e]
                     && !db.rows[d].confirmed && !db.rows[e].confirmed :: d == e
  }

  lemma StepKeepsOnePending(db: Db, s: Step)
    requires OnePending(db)
    ensures OnePending(After(db, s))
  {
    var d := After(db, s);
    forall x, y | x in d.rows && y in d.rows && d.owner[x] == d.owner[y] && !d.rows[x].confirmed && !d.rows[y].confirmed
      ensures x == y
    {
      if s.Begin? && d != db {
        assert x != s.target ==> x in db.rows && db.rows[x] == d.rows[x];
        assert y != s.target ==> y in db.rows && db.rows[y] == d.rows[y];
      } else {
        assert x in db.rows && y in db.rows;
      }
    }
  }

  /** In every run a user has at most one pending eviction at a time. */
  lemma {:induction false} OneAtATime(run: seq<Db>, steps: seq<Step>)
    requires IsRun(run, steps) && OnePending(run[0])
    ensures OnePending(run[|steps|])
    decreases |steps|
  {
    var n := |steps|;
    if n > 0 {
      RunPrefix(run, steps, n - 1);
      OneAtATime(run[..n], steps[..n - 1]);
      assert run[n] == After(run[n - 1], steps[n - 1]);
      StepKeepsOnePending(run[n - 1], steps[n - 1]);
    }
  }

  /** A retired device is banned for good, whatever its eviction. */
  lemma RetiredIsBanned(db: Db, device: Id)
    requires device in db.owner
    ensures var d := After(db, Retire(device));
            device in d.bannedUntil && d.bannedUntil[device] == 253402214400 && d.rows == db.rows && d.acks == db.acks
  {
  }

  /** An administrator's timed termination sets evicted_until whatever it was. It keeps the
      promise exactly when the device has no eviction, or is confirmed and stays banned for
      the rest of its cooldown. */
  lemma TerminationCanEndABan(db: Db, device: Id, until: int)
    requires BanKept(db) && device in db.owner
    ensures BanKept(After(db, Terminate(device, until))) <==>
            device !in db.rows || until == FOREVER
            || (db.rows[device].confirmed && until >= db.rows[device].confirmedAt + COOLDOWN)
  {
    BanStaysKept(db, Terminate(device, until));
  }

  /** It happens: an administrator's termination of a device under eviction lets the ban
      lapse while the eviction is still pending. */
  lemma TerminationEndsABan() returns (run: seq<Db>, steps: seq<Step>)
    ensures IsRun(run, steps) && Valid(run[0]) && StatusIsTrue(run[0]) && BanKept(run[0])
    ensures var d := run[|steps|];
            "device" in d.rows && !d.rows["device"].confirmed && "device" in d.bannedUntil
                && d.bannedUntil["device"] == 400
  {
    var db := Db(map["device" := "user"], map[], map[], {});
    steps := [Begin("user", "device", ["exit"], 1, "epoch", 0), Terminate("device", 400)];
    var begun := After(db, steps[0]);
    assert !Pending(db, "user");
    assert begun.rows["device"] == Row("epoch", ["exit"], false, 0);
    run := [db, begun, After(begun, steps[1])];
  }

  // ----- The transactions -----

  class EvictionTables {
    var owner: map<Id, Id>
    var bannedUntil: map<Id, int>
    var rows: map<Id, Row>
    var acks: set<(Id, Id)>

    function State(): Db
      reads this
    {
      Db(owner, bannedUntil, rows, acks)
    }

    /** beginUUIDEviction; `exits` is the number of exits in the fleet now. */
    method BeginEviction(user: Id, target: Id, expected: seq<Id>, exits: int, epoch: Id, at: int)
      returns (e: Option<Error>)
      modifies `bannedUntil, `rows, `acks
      ensures State() == After(old(State()), Begin(user, target, expected, exits, epoch, at))
      ensures e == BeginError(old(State()), user, target, expected, exits, at)
    {
      if expected == [] {
        return Some(IncompleteFleet);
      }
      if target !in owner || owner[target] != user || (target in bannedUntil && bannedUntil[target] > at) {
        return Some(PendingEviction);
      }
      var pending := exists d | d in rows :: d in owner && owner[d] == user && !rows[d].confirmed;
      if pending {
        return Some(PendingEviction);
      }
      if exits != |expected| {
        return Some(IncompleteFleet);
      }
      bannedUntil := bannedUntil[target := FOREVER];
      acks := set a | a in acks && (target !in rows || a.0 != rows[target].epoch);
      rows := rows[target := Row(epoch, expected, false, 0)];
      return None;
    }

    /** AcknowledgeUUIDEviction, with the authenticated node's own identifier. */
    method AcknowledgeEviction(device: Id, epoch: Id, node: Id, when: int) returns (e: Option<Error>)
      modifies `rows, `acks
      ensures State() == After(old(State()), Acknowledge(device, epoch, node, when))
      ensures e == AckError(old(State()), device, epoch, node)
    {
      if device !in rows || rows[device].epoch != epoch {
        return Some(NotCurrentEpoch);
      }
      if node !in rows[device].required {
        return Some(NodeNotRequired);
      }
      acks := acks + {(epoch, node)};
      if !rows[device].confirmed {
        var missing := exists n | n in rows[device].required :: (epoch, n) !in acks;
        if !missing {
          rows := rows[device := rows[device].(confirmed := true, confirmedAt := when)];
        }
      }
      return None;
    }

    /** completeUUIDEvictions; tells whether an eviction of the user is still pending. */
    method CompleteEvictions(user: Id, now: int) returns (pending: bool)
      modifies `bannedUntil, `rows, `acks
      ensures State() == After(old(State()), Complete(user, now))
      ensures pending <==> Pending(State(), user)
    {
      bannedUntil := bannedUntil + map d | d in Cooling(State(), user) :: rows[d].confirmedAt + COOLDOWN;
      ghost var cooling := State();
      var gone := Expired(State(), user, now);
      var epochs := set d | d in gone && d in rows :: rows[d].epoch;
      rows := rows - gone;
      acks := Without(acks, epochs);
      pending := exists d | d in rows :: d in owner && owner[d] == user && !rows[d].confirmed;
    }

    /** Inserts a device; its identifier is unique. */
    method InsertDevice(device: Id, user: Id) returns (inserted: bool)
      modifies `owner
      ensures State() == After(old(State()), AddDevice(device, user)) && inserted == (device !in old(owner))
    {
      inserted := device !in owner;
      if inserted {
        owner := owner[device := user];
      }
    }

    /** TerminateSession, `until` being the time now plus the cooldown asked for. */
    method TerminateSession(device: Id, until: int) returns (found: bool)
      modifies `bannedUntil
      ensures State() == After(old(State()), Terminate(device, until)) && found == (device in owner)
    {
      found := device in owner;
      if found {
        bannedUntil := bannedUntil[device := until];
      }
    }
  }
}
