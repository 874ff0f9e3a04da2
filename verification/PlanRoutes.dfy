/** Which chains and exits a plan gives access to: replacing one plan's routes, and granting
    new routes to listed plans and groups, without touching anybody else's access
    (api-server/internal/handlers/admin_plan_routes.go, admin_node_chain_batch.go). */
module PlanRoutes {
  import opened Base
  import opened Sets

  type Id = string

  datatype Chain = Chain(exit: Id, relayPool: Option<Id>)

  /** The relations plans, node_groups, node_chains, node_group_chains, node_group_nodes. */
  datatype Db = Db(plans: map<Id, Id>, groups: set<Id>, chains: map<Id, Chain>,
                   groupChains: set<(Id, Id)>, groupNodes: set<(Id, Id)>)

  /** The foreign keys between the relations. */
  ghost predicate Valid(db: Db) {
    && (forall p | p in db.plans :: db.plans[p] in db.groups)
    && (forall r | r in db.groupChains :: r.0 in db.groups && r.1 in db.chains)
    && (forall r | r in db.groupNodes :: r.0 in db.groups)
    && (forall c | c in db.chains && db.chains[c].relayPool.Some? :: db.chains[c].relayPool.value in db.groups)
  }

  /** The second column for rows with this first column. */
  function RowsOf(relation: set<(Id, Id)>, group: Id): set<Id> {
    set r | r in relation && r.0 == group :: r.1
  }

  function Rows(group: Id, values: set<Id>): set<(Id, Id)> {
    set v | v in values :: (group, v)
  }

  /** The chains in a plan's subscription, and the exits its clients are provisioned on. */
  function ChainsOf(db: Db, plan: Id): set<Id>
    requires plan in db.plans
  {
    RowsOf(db.groupChains, db.plans[plan])
  }

  function ExitsOf(db: Db, plan: Id): set<Id>
    requires plan in db.plans
  {
    RowsOf(db.groupNodes, db.plans[plan])
  }

  predicate IsRelayPool(db: Db, group: Id) {
    exists c | c in db.chains :: db.chains[c].relayPool == Some(group)
  }

  predicate IsShared(db: Db, plan: Id)
    requires plan in db.plans
  {
    exists q | q in db.plans :: q != plan && db.plans[q] == db.plans[plan]
  }

  /** The selected chains' exits. */
  function ExitSet(db: Db, ids: set<Id>): set<Id> {
    set c | c in ids && c in db.chains :: db.chains[c].exit
  }

  // ----- What is promised -----

  /** Nobody's access and no group that existed changes. */
  ghost predicate SameAccess(db: Db, d: Db) {
    && d.plans.Keys == db.plans.Keys && d.chains == db.chains && db.groups <= d.groups
    && (forall q | q in db.plans :: ChainsOf(d, q) == ChainsOf(db, q) && ExitsOf(d, q) == ExitsOf(db, q))
    && (forall g | g in db.groups :: SameGroup(db, d, g))
  }

  ghost predicate SameGroup(db: Db, d: Db, g: Id) {
    RowsOf(d.groupChains, g) == RowsOf(db.groupChains, g) && RowsOf(d.groupNodes, g) == RowsOf(db.groupNodes, g)
  }

  /** The plan has its group to itself, and no chain forwards through it. */
  ghost predicate OwnsGroup(db: Db, plan: Id)
    requires plan in db.plans
  {
    !IsShared(db, plan) && !IsRelayPool(db, db.plans[plan])
  }

  // ----- isolatePlanRouteGroup -----

  function Isolated(db: Db, plan: Id, newId: Id): Db
    requires plan in db.plans
  {
    var group := db.plans[plan];
    if !IsShared(db, plan) && !IsRelayPool(db, group) then db
    else db.(groups := db.groups + {newId},
             groupChains := db.groupChains + Rows(newId, RowsOf(db.groupChains, group)),
             groupNodes := db.groupNodes + Rows(newId, RowsOf(db.groupNodes, group)),
             plans := db.plans[plan := newId])
  }

  lemma AddedRows(relation: set<(Id, Id)>, group: Id, values: set<Id>)
    ensures forall g | g != group :: RowsOf(relation + Rows(group, values), g) == RowsOf(relation, g)
    ensures RowsOf(relation + Rows(group, values), group) == RowsOf(relation, group) + values
  {
    var more := relation + Rows(group, values);
    forall g, v ensures v in RowsOf(more, g) <==> v in RowsOf(relation, g) || (g == group && v in values) {
      assert v in RowsOf(more, g) <==> (g, v) in more;
      assert v in RowsOf(relation, g) <==> (g, v) in relation;
    }
  }

  lemma NoRows(relation: set<(Id, Id)>, group: Id)
    requires forall r | r in relation :: r.0 != group
    ensures RowsOf(relation, group) == {}
  {
  }

  /** From db to d the plan has got its group to itself, and nothing else has changed. */
  ghost predicate Isolation(db: Db, d: Db, plan: Id, newId: Id)
    requires plan in db.plans
  {
    && Valid(d) && SameAccess(db, d) && OwnsGroup(d, plan) && d.groups <= db.groups + {newId}
    && forall q | q in db.plans && q != plan :: d.plans[q] == db.plans[q] && (OwnsGroup(db, q) ==> OwnsGroup(d, q))
  }

  /** Isolating gives a plan its own copy of its group, and changes nobody's access. */
  lemma IsolatedOwns(db: Db, plan: Id, newId: Id)
    requires Valid(db) && plan in db.plans && newId !in db.groups
    ensures Isolation(db, Isolated(db, plan, newId), plan, newId)
  {
    var d := Isolated(db, plan, newId);
    var group := db.plans[plan];
    AddedRows(db.groupChains, newId, RowsOf(db.groupChains, group));
    AddedRows(db.groupNodes, newId, RowsOf(db.groupNodes, group));
    NoRows(db.groupChains, newId);
    NoRows(db.groupNodes, newId);
    assert forall g :: IsRelayPool(d, g) <==> IsRelayPool(db, g);
  }

  /** A plan gets another group if and only if another plan has its group or a chain forwards
      through it; otherwise nothing changes. */
  lemma IsolatesExactly(db: Db, plan: Id, newId: Id)
    requires plan in db.plans && newId !in db.groups && db.plans[plan] in db.groups
    ensures var d := Isolated(db, plan, newId);
            if (exists q | q in db.plans :: q != plan && db.plans[q] == db.plans[plan])
               || exists c | c in db.chains :: db.chains[c].relayPool == Some(db.plans[plan])
            then d.plans == db.plans[plan := newId] && d.groups == db.groups + {newId}
            else d == db
  {
  }

  // ----- SetRoutes -----

  /** A group's rows are deleted and replaced. */
  function Replaced(relation: set<(Id, Id)>, group: Id, values: set<Id>): set<(Id, Id)> {
    (set r | r in relation && r.0 != group) + Rows(group, values)
  }

  lemma ReplacedRows(relation: set<(Id, Id)>, group: Id, values: set<Id>)
    ensures forall g ::
             RowsOf(Replaced(relation, group, values), g) ==
             if g == group then values else RowsOf(relation, g)
  {
    var now := Replaced(relation, group, values);
    forall g, v ensures v in RowsOf(now, g) <==> if g == group then v in values else v in RowsOf(relation, g) {
      assert v in RowsOf(now, g) <==> (g, v) in now;
      assert v in RowsOf(relation, g) <==> (g, v) in relation;
    }
  }

  function RoutesSet(db: Db, plan: Id, ids: set<Id>, newId: Id): Db
    requires plan in db.plans
  {
    var d := Isolated(db, plan, newId);
    d.(groupChains := Replaced(d.groupChains, d.plans[plan], ids),
       groupNodes := Replaced(d.groupNodes, d.plans[plan], ExitSet(d, ids)))
  }

  lemma ReplacingKeeps(i: Db, plan: Id, ids: set<Id>, d: Db)
    requires Valid(i) && plan in i.plans && OwnsGroup(i, plan) && ids <= i.chains.Keys
    requires d == i.(groupChains := Replaced(i.groupChains, i.plans[plan], ids),
                     groupNodes := Replaced(i.groupNodes, i.plans[plan], ExitSet(i, ids)))
    ensures Valid(d) && ChainsOf(d, plan) == ids && ExitsOf(d, plan) == ExitSet(i, ids)
    ensures forall q | q in i.plans && q != plan :: ChainsOf(d, q) == ChainsOf(i, q) && ExitsOf(d, q) == ExitsOf(i, q)
    ensures forall g | IsRelayPool(i, g) :: SameGroup(i, d, g)
  {
    ReplacedRows(i.groupChains, i.plans[plan], ids);
    ReplacedRows(i.groupNodes, i.plans[plan], ExitSet(i, ids));
  }

  /** MAIN RESULT. SetRoutes gives the plan exactly the selected chains and exactly their
      exits; every other plan keeps its chains and exits, and every relay pool its members. */
  lemma SetRoutesIsExact(db: Db, plan: Id, ids: set<Id>, newId: Id)
    requires Valid(db) && plan in db.plans && newId !in db.groups && ids <= db.chains.Keys
    ensures var d := RoutesSet(db, plan, ids, newId);
            && Valid(d) && d.chains == db.chains && d.plans.Keys == db.plans.Keys
            && ChainsOf(d, plan) == ids && ExitsOf(d, plan) == ExitSet(db, ids)
            && (forall q | q in db.plans && q != plan ::
                ChainsOf(d, q) == ChainsOf(db, q) && ExitsOf(d, q) == ExitsOf(db, q))
            && (forall g | g in db.groups && IsRelayPool(db, g) :: SameGroup(db, d, g))
  {
    var i, d := Isolated(db, plan, newId), RoutesSet(db, plan, ids, newId);
    IsolatedOwns(db, plan, newId);
    ReplacingKeeps(i, plan, ids, d);
    forall g | g in db.groups && IsRelayPool(db, g) ensures SameGroup(db, d, g) {
      assert IsRelayPool(i, g) && SameGroup(db, i, g) && SameGroup(i, d, g);
    }
  }

  // ----- Batch: granting new routes -----

  predicate Distinct(ids: seq<Id>) { forall i, j | 0 <= i < j < |ids| :: ids[i] != ids[j] }

  /** Each of the first n plans has its group to itself. */
  ghost predicate OwnGroups(d: Db, plans: seq<Id>, n: nat)
    requires n <= |plans| && forall p | p in plans :: p in d.plans
  {
    forall k | 0 <= k < n :: OwnsGroup(d, plans[k])
  }

  /** The others have the group they had. */
  ghost predicate OthersKeep(db: Db, d: Db, plans: seq<Id>, n: nat)
    requires n <= |plans| && d.plans.Keys == db.plans.Keys
  {
    forall q | q in db.plans && q !in plans[..n] :: d.plans[q] == db.plans[q]
  }

  ghost predicate AreIsolated(db: Db, d: Db, plans: seq<Id>, n: nat)
    requires n <= |plans| && d.plans.Keys == db.plans.Keys && forall p | p in plans :: p in db.plans
  {
    OwnGroups(d, plans, n) && OthersKeep(db, d, plans, n)
  }

  lemma SameAccessTransitive(a: Db, b: Db, c: Db)
    requires SameAccess(a, b) && SameAccess(b, c)
    ensures SameAccess(a, c)
  {
    forall g | g in a.groups ensures SameGroup(a, c, g) {
      assert SameGroup(a, b, g) && SameGroup(b, c, g);
    }
  }

  /** The identifiers the database generates are new. */
  ghost predicate NewIds(db: Db, newIds: seq<Id>) {
    Distinct(newIds) && forall k | 0 <= k < |newIds| :: newIds[k] !in db.groups
  }

  lemma OwnersGrow(c: Db, d: Db, plans: seq<Id>, n: nat)
    requires n < |plans| && Distinct(plans) && c.plans.Keys == d.plans.Keys && forall p | p in plans :: p in c.plans
    requires OwnGroups(c, plans, n) && OwnsGroup(d, plans[n])
    requires forall q | q in c.plans && q != plans[n] :: OwnsGroup(c, q) ==> OwnsGroup(d, q)
    ensures OwnGroups(d, plans, n + 1)
  {
    forall k | 0 <= k < n ensures OwnsGroup(d, plans[k]) {
      assert OwnsGroup(c, plans[k]) && plans[k] != plans[n];
    }
  }

  lemma OthersGrow(db: Db, c: Db, d: Db, plans: seq<Id>, n: nat)
    requires n < |plans| && c.plans.Keys == db.plans.Keys == d.plans.Keys && OthersKeep(db, c, plans, n)
    requires forall q | q in c.plans && q != plans[n] :: d.plans[q] == c.plans[q]
    ensures OthersKeep(db, d, plans, n + 1)
  {
    forall q | q in db.plans && q !in plans[..n + 1] ensures d.plans[q] == db.plans[q] {
      NotAmong(plans, n, q);
    }
  }

  lemma NotAmong(plans: seq<Id>, n: nat, q: Id)
    requires n < |plans| && q !in plans[..n + 1]
    ensures q !in plans[..n] && q != plans[n]
  {
    assert plans[..n + 1] == plans[..n] + [plans[n]];
  }

  /** The state after the first n plans. */
  ghost predicate IsolatedSoFar(db: Db, d: Db, plans: seq<Id>, newIds: seq<Id>, n: nat)
    requires n <= |plans| <= |newIds| && d.plans.Keys == db.plans.Keys && forall p | p in plans :: p in db.plans
  {
    && Valid(d) && SameAccess(db, d) && AreIsolated(db, d, plans, n)
    && forall k | n <= k < |newIds| :: newIds[k] !in d.groups
  }

  /** Isolating plan n takes the state one plan further. */
  lemma IsolateStep(db: Db, c: Db, d: Db, plans: seq<Id>, newIds: seq<Id>, n: nat)
    requires n < |plans| <= |newIds| && Distinct(plans) && Distinct(newIds)
    requires c.plans.Keys == db.plans.Keys && forall p | p in plans :: p in db.plans
    requires IsolatedSoFar(db, c, plans, newIds, n) && d == Isolated(c, plans[n], newIds[n])
    ensures d.plans.Keys == db.plans.Keys && IsolatedSoFar(db, d, plans, newIds, n + 1)
    ensures forall q | q in db.plans && q != plans[n] :: d.plans[q] == c.plans[q]
  {
    IsolatedOwns(c, plans[n], newIds[n]);
    SameAccessTransitive(db, c, d);
    OwnersGrow(c, d, plans, n);
    OthersGrow(db, c, d, plans, n);
    NewIdsStay(c, d, newIds, n + 1);
  }

  lemma NewIdsStay(c: Db, d: Db, newIds: seq<Id>, n: nat)
    requires 0 < n <= |newIds| && Distinct(newIds) && d.groups <= c.groups + {newIds[n - 1]}
    requires forall k | n - 1 <= k < |newIds| :: newIds[k] !in c.groups
    ensures forall k | n <= k < |newIds| :: newIds[k] !in d.groups
  {
  }

  /** A new route: the chain's identifier, and its exit. */
  datatype NewRoute = NewRoute(id: Id, exit: Id)

  /** The row of a new chain, and access to it and its exit for every one of the groups. */
  function Granted(db: Db, groups: set<Id>, route: NewRoute): Db {
    db.(chains := db.chains[route.id := Chain(route.exit, None)],
        groupChains := db.groupChains + (set g | g in groups :: (g, route.id)),
        groupNodes := db.groupNodes + (set g | g in groups :: (g, route.exit)))
  }

  function GrantedAll(db: Db, groups: set<Id>, routes: seq<NewRoute>, n: nat): (d: Db)
    requires n <= |routes|
    ensures d.plans == db.plans && d.groups == db.groups
  {
    if n == 0 then db else Granted(GrantedAll(db, groups, routes, n - 1), groups, routes[n - 1])
  }

  function RouteIds(routes: seq<NewRoute>, n: nat): set<Id>
    requires n <= |routes|
  {
    set k | 0 <= k < n :: routes[k].id
  }

  function RouteExits(routes: seq<NewRoute>, n: nat): set<Id>
    requires n <= |routes|
  {
    set k | 0 <= k < n :: routes[k].exit
  }

  lemma ColumnRows(relation: set<(Id, Id)>, groups: set<Id>, value: Id)
    ensures forall g :: RowsOf(relation + (set h | h in groups :: (h, value)), g) ==
                        RowsOf(relation, g) + (if g in groups then {value} else {})
  {
    var more := relation + (set h | h in groups :: (h, value));
    forall g, v ensures v in RowsOf(more, g) <==> v in RowsOf(relation, g) || (g in groups && v == value) {
      assert v in RowsOf(more, g) <==> (g, v) in more;
      assert v in RowsOf(relation, g) <==> (g, v) in relation;
    }
  }

  /** What the groups get, and nothing else. */
  ghost predicate GrantsTo(db: Db, d: Db, groups: set<Id>, ids: set<Id>, exits: set<Id>) {
    forall g ::
      && RowsOf(d.groupChains, g) == RowsOf(db.groupChains, g) + (if g in groups then ids else {})
      && RowsOf(d.groupNodes, g) == RowsOf(db.groupNodes, g) + (if g in groups then exits else {})
  }

  /** New chains do not forward through a pool, and replace no chain. */
  ghost predicate NewRoutes(db: Db, routes: seq<NewRoute>) {
    && (forall i, j | 0 <= i < j < |routes| :: routes[i].id != routes[j].id)
    && (forall k | 0 <= k < |routes| :: routes[k].id !in db.chains)
  }

  lemma GrantOne(db: Db, groups: set<Id>, route: NewRoute)
    requires Valid(db) && groups <= db.groups && route.id !in db.chains
    ensures var d := Granted(db, groups, route);
            && Valid(d) && GrantsTo(db, d, groups, {route.id}, {route.exit})
            && forall g :: IsRelayPool(d, g) <==> IsRelayPool(db, g)
  {
    var d := Granted(db, groups, route);
    ColumnRows(db.groupChains, groups, route.id);
    ColumnRows(db.groupNodes, groups, route.exit);
    forall g ensures IsRelayPool(d, g) <==> IsRelayPool(db, g) {
      if c :| c in db.chains && db.chains[c].relayPool == Some(g) {
        assert d.chains[c] == db.chains[c];
      }
    }
  }

  lemma GrantsAdd(a: Db, b: Db, c: Db, groups: set<Id>, ids: set<Id>, exits: set<Id>, id: Id, exit: Id)
    requires GrantsTo(a, b, groups, ids, exits) && GrantsTo(b, c, groups, {id}, {exit})
    ensures GrantsTo(a, c, groups, ids + {id}, exits + {exit})
  {
  }

  lemma {:induction false} AllGranted(db: Db, groups: set<Id>, routes: seq<NewRoute>, n: nat)
    requires Valid(db) && n <= |routes| && groups <= db.groups && NewRoutes(db, routes)
    ensures var d := GrantedAll(db, groups, routes, n);
            && Valid(d) && GrantsTo(db, d, groups, RouteIds(routes, n), RouteExits(routes, n))
            && (forall g :: IsRelayPool(d, g) <==> IsRelayPool(db, g))
            && (forall k | n <= k < |routes| :: routes[k].id !in d.chains)
  {
    if n > 0 {
      AllGranted(db, groups, routes, n - 1);
      var c := GrantedAll(db, groups, routes, n - 1);
      GrantOne(c, groups, routes[n - 1]);
      OneMoreRoute(routes, n);
      GrantsAdd(db, c, GrantedAll(db, groups, routes, n), groups,
                RouteIds(routes, n - 1), RouteExits(routes, n - 1), routes[n - 1].id, routes[n - 1].exit);
    }
  }

  /** Old chains stay, and every new route has its chain. */
  ghost predicate HasRoutes(db: Db, d: Db, routes: seq<NewRoute>, n: nat)
    requires n <= |routes|
  {
    && d.chains.Keys == db.chains.Keys + RouteIds(routes, n)
    && (forall c | c in db.chains :: c in d.chains && d.chains[c] == db.chains[c])
    && (forall k | 0 <= k < n :: routes[k].id in d.chains && d.chains[routes[k].id] == Chain(routes[k].exit, None))
  }

  lemma {:induction false} GrantedChains(db: Db, groups: set<Id>, routes: seq<NewRoute>, n: nat)
    requires n <= |routes| && NewRoutes(db, routes)
    ensures HasRoutes(db, GrantedAll(db, groups, routes, n), routes, n)
  {
    if n > 0 {
      GrantedChains(db, groups, routes, n - 1);
      HasOneMore(db, GrantedAll(db, groups, routes, n - 1), GrantedAll(db, groups, routes, n), routes, n);
    }
  }

  lemma HasOneMore(db: Db, c: Db, d: Db, routes: seq<NewRoute>, n: nat)
    requires 0 < n <= |routes| && NewRoutes(db, routes) && HasRoutes(db, c, routes, n - 1)
    requires d.chains == c.chains[routes[n - 1].id := Chain(routes[n - 1].exit, None)]
    ensures HasRoutes(db, d, routes, n)
  {
    OneMoreRoute(routes, n);
  }

  lemma OneMoreRoute(routes: seq<NewRoute>, n: nat)
    requires 0 < n <= |routes|
    ensures RouteIds(routes, n) == RouteIds(routes, n - 1) + {routes[n - 1].id}
    ensures RouteExits(routes, n) == RouteExits(routes, n - 1) + {routes[n - 1].exit}
  {
  }

  function GroupsOf(db: Db, plans: seq<Id>): set<Id>
    requires forall p | p in plans :: p in db.plans
  {
    set p | p in plans :: db.plans[p]
  }

  /** A batch means to reach this plan: it is listed, or uses an explicit group. */
  predicate Reached(db: Db, groupIds: set<Id>, plans: seq<Id>, q: Id)
    requires q in db.plans
  {
    q in plans || db.plans[q] in groupIds
  }

  lemma OthersStayOut(db: Db, d: Db, plans: seq<Id>, q: Id)
    requires d.plans.Keys == db.plans.Keys && (forall p | p in plans :: p in db.plans) && q in db.plans
    requires AreIsolated(db, d, plans, |plans|) && q !in plans
    ensures d.plans[q] == db.plans[q] && d.plans[q] !in GroupsOf(d, plans)
  {
    assert plans[..|plans|] == plans;
    forall p | p in plans ensures d.plans[p] != d.plans[q] {
      var k :| 0 <= k < |plans| && plans[k] == p;
      assert OwnsGroup(d, plans[k]) && q != p;
    }
  }

  lemma ReachedGroups(db: Db, d: Db, groupIds: set<Id>, plans: seq<Id>, q: Id)
    requires d.plans.Keys == db.plans.Keys && (forall p | p in plans :: p in db.plans) && q in db.plans
    requires AreIsolated(db, d, plans, |plans|)
    ensures d.plans[q] in groupIds + GroupsOf(d, plans) <==> Reached(db, groupIds, plans, q)
  {
    if q !in plans {
      OthersStayOut(db, d, plans, q);
    }
  }

  lemma PoolIsSpared(db: Db, d: Db, plans: seq<Id>, g: Id)
    requires d.plans.Keys == db.plans.Keys
             && (forall p | p in plans :: p in db.plans) && AreIsolated(db, d, plans, |plans|)
    requires d.chains == db.chains && IsRelayPool(db, g)
    ensures g !in GroupsOf(d, plans)
  {
    forall p | p in plans ensures d.plans[p] != g {
      var k :| 0 <= k < |plans| && plans[k] == p;
      assert OwnsGroup(d, plans[k]);
    }
  }

  /** Plan q, in the end, against what it had. */
  ghost predicate Gets(db: Db, d: Db, q: Id, ids: set<Id>, exits: set<Id>)
    requires q in db.plans && q in d.plans
  {
    ChainsOf(d, q) == ChainsOf(db, q) + ids && ExitsOf(d, q) == ExitsOf(db, q) + exits
  }

  lemma GrantedToPlan(db: Db, i: Db, d: Db, groups: set<Id>, ids: set<Id>, exits: set<Id>, q: Id)
    requires q in db.plans && SameAccess(db, i) && d.plans == i.plans && GrantsTo(i, d, groups, ids, exits)
    ensures if i.plans[q] in groups then Gets(db, d, q, ids, exits) else Gets(db, d, q, {}, {})
  {
  }

  lemma GrantedToGroup(db: Db, i: Db, d: Db, groups: set<Id>, ids: set<Id>, exits: set<Id>, g: Id)
    requires g in db.groups && SameAccess(db, i) && GrantsTo(i, d, groups, ids, exits) && g !in groups
    ensures SameGroup(db, d, g)
  {
    assert SameGroup(db, i, g);
  }

  /** The new chains exist; the listed plans and the plans of explicit groups get them and
      their exits, no other plan gets anything, and every relay pool keeps its members. */
  ghost predicate ReachesOnly(db: Db, d: Db, groupIds: set<Id>, plans: seq<Id>, routes: seq<NewRoute>) {
    && Valid(d) && d.plans.Keys == db.plans.Keys
    && (forall q | q in db.plans ::
          if Reached(db, groupIds, plans, q) then
               Gets(db, d, q, RouteIds(routes, |routes|), RouteExits(routes, |routes|))
          else Gets(db, d, q, {}, {}))
    && (forall g | g in db.groups && IsRelayPool(db, g) :: SameGroup(db, d, g))
    && HasRoutes(db, d, routes, |routes|)
  }

  /** MAIN RESULT. Once the listed plans are isolated, granting the new routes to their
      groups and to the explicit ones reaches exactly the plans meant. */
  lemma BatchReachesOnlyItsPlans(db: Db, i: Db, groupIds: set<Id>, plans: seq<Id>, newIds: seq<Id>,
                                 routes: seq<NewRoute>)
    requires |plans| <= |newIds| && NewRoutes(db, routes) && i.plans.Keys == db.plans.Keys
    requires (forall p | p in plans :: p in db.plans) && IsolatedSoFar(db, i, plans, newIds, |plans|)
    requires groupIds <= db.groups && forall g | g in groupIds :: !IsRelayPool(db, g)
    ensures ReachesOnly(db, GrantedAll(i, groupIds + GroupsOf(i, plans), routes, |routes|), groupIds, plans, routes)
  {
    var groups := groupIds + GroupsOf(i, plans);
    AllGranted(i, groups, routes, |routes|);
    GrantedChains(i, groups, routes, |routes|);
    var d, ids, exits := GrantedAll(i, groups, routes, |routes|), RouteIds(routes, |routes|),
                         RouteExits(routes, |routes|);
    forall q | q in db.plans
      ensures if Reached(db, groupIds, plans, q) then Gets(db, d, q, ids, exits) else Gets(db, d, q, {}, {})
    {
      ReachedGroups(db, i, groupIds, plans, q);
      GrantedToPlan(db, i, d, groups, ids, exits, q);
    }
    forall g | g in db.groups && IsRelayPool(db, g) ensures SameGroup(db, d, g) {
      PoolIsSpared(db, i, plans, g);
      GrantedToGroup(db, i, d, groups, ids, exits, g);
    }
  }

  // ----- The handlers -----

  datatype RouteError = DuplicateId | PlanNotFound | UnknownGroup | UnknownRoute | ForwardingGroup

  function SetOf(ids: seq<Id>): set<Id> { set c | c in ids }

  lemma {:induction false} DistinctSize(ids: seq<Id>)
    requires Distinct(ids)
    ensures |SetOf(ids)| == |ids|
  {
    if ids != [] {
      DistinctSize(ids[1..]);
      assert ids == [ids[0]] + ids[1..];
      assert SetOf(ids) == SetOf(ids[1..]) + {ids[0]};
      assert ids[0] !in ids[1..];
    }
  }

  /** As many distinct identifiers are found as were given exactly when all exist. */
  lemma FoundAll(ids: seq<Id>, known: set<Id>)
    requires Distinct(ids)
    ensures |SetOf(ids) * known| == |ids| <==> forall c | c in ids :: c in known
  {
    DistinctSize(ids);
    SubsetSize(SetOf(ids) * known, SetOf(ids));
    if SetOf(ids) * known == SetOf(ids) {
      forall c | c in ids ensures c in known {
        assert c in SetOf(ids) * known;
      }
    }
    if forall c | c in ids :: c in known {
      assert SetOf(ids) * known == SetOf(ids);
    }
  }

  /** Why a batch is refused: repeated identifiers, unknown plans, unknown groups, or an
      explicit group that chains forward through, in this order of precedence. */
  function Refusal(db: Db, groupIds: seq<Id>, planIds: seq<Id>): Option<RouteError> {
    if !Distinct(groupIds) || !Distinct(planIds) then Some(DuplicateId)
    else if exists p | p in planIds :: p !in db.plans then Some(PlanNotFound)
    else if exists g | g in groupIds :: g !in db.groups then Some(UnknownGroup)
    else if exists g | g in groupIds :: IsRelayPool(db, g) then Some(ForwardingGroup)
    else None
  }

  /** A batch passes if and only if no group and no plan is given twice, all of them exist, and no
      chain forwards through one of the groups. */
  lemma PassesExactly(db: Db, groupIds: seq<Id>, planIds: seq<Id>)
    ensures Refusal(db, groupIds, planIds) == None <==>
            && (forall i, j | 0 <= i < j < |groupIds| :: groupIds[i] != groupIds[j])
            && (forall i, j | 0 <= i < j < |planIds| :: planIds[i] != planIds[j])
            && (forall p | p in planIds :: p in db.plans) && (forall g | g in groupIds :: g in db.groups)
            && forall c | c in db.chains && db.chains[c].relayPool.Some? :: db.chains[c].relayPool.value !in groupIds
  {
    if forall c | c in db.chains && db.chains[c].relayPool.Some? :: db.chains[c].relayPool.value !in groupIds {
      forall g | g in groupIds ensures !IsRelayPool(db, g) {
      }
    }
    if forall g | g in groupIds :: !IsRelayPool(db, g) {
      forall c | c in db.chains && db.chains[c].relayPool.Some? ensures db.chains[c].relayPool.value !in groupIds {
        assert IsRelayPool(db, db.chains[c].relayPool.value);
      }
    }
  }

  class PlanTables {
    var plans: map<Id, Id>
    var groups: set<Id>
    var chains: map<Id, Chain>
    var groupChains: set<(Id, Id)>
    var groupNodes: set<(Id, Id)>

    function State(): Db
      reads this
    {
      Db(plans, groups, chains, groupChains, groupNodes)
    }

    method IsolatePlanRouteGroup(plan: Id, newId: Id) returns (groupId: Id)
      requires plan in plans
      modifies this
      ensures State() == Isolated(old(State()), plan, newId) && groupId == plans[plan]
    {
      var group := plans[plan];
      var shared := exists q | q in plans :: q != plan && plans[q] == group;
      var relayPool := exists c | c in chains :: chains[c].relayPool == Some(group);
      if !shared && !relayPool {
        return group;
      }
      groups := groups + {newId};
      groupChains := groupChains + Rows(newId, RowsOf(groupChains, group));
      groupNodes := groupNodes + Rows(newId, RowsOf(groupNodes, group));
      plans := plans[plan := newId];
      return newId;
    }

    method ReplaceRows(groupId: Id, ids: set<Id>)
      modifies `groupChains, `groupNodes
      ensures groupChains == Replaced(old(groupChains), groupId, ids)
      ensures groupNodes == Replaced(old(groupNodes), groupId, ExitSet(State(), ids))
    {
      groupChains := set r | r in groupChains && r.0 != groupId;
      groupChains := groupChains + Rows(groupId, ids);
      groupNodes := set r | r in groupNodes && r.0 != groupId;
      groupNodes := groupNodes + Rows(groupId, set c | c in chains && c in ids :: chains[c].exit);
      assert (set c | c in chains && c in ids :: chains[c].exit) == ExitSet(State(), ids);
    }

    /** Replaces the routes of one plan, or changes nothing. */
    method SetRoutes(plan: Id, chainIds: seq<Id>, newId: Id) returns (r: Result<Id, RouteError>)
      requires Valid(State()) && newId !in groups
      modifies this
      ensures r.Ok? ==>
                plan in old(plans) && State() == RoutesSet(old(State()), plan, SetOf(chainIds), newId)
                && r.value == plans[plan]
      ensures r.Err? ==> State() == old(State())
      ensures r == Err(DuplicateId) <==> !Distinct(chainIds)
      ensures r == Err(PlanNotFound) <==> Distinct(chainIds) && plan !in old(plans)
      ensures r == Err(UnknownRoute) <==>
                Distinct(chainIds) && plan in old(plans) && exists c | c in chainIds :: c !in old(chains)
      ensures r.Err? ==> r.error == DuplicateId || r.error == PlanNotFound || r.error == UnknownRoute
    {
      if !Distinct(chainIds) {
        return Err(DuplicateId);
      }
      if plan !in plans {
        return Err(PlanNotFound);
      }
      FoundAll(chainIds, chains.Keys);
      var found := |SetOf(chainIds) * chains.Keys|;
      if found != |chainIds| {
        return Err(UnknownRoute);
      }
      var groupId := IsolatePlanRouteGroup(plan, newId);
      ReplaceRows(groupId, SetOf(chainIds));
      return Ok(groupId);
    }

    method CheckBatch(groupIds: seq<Id>, planIds: seq<Id>) returns (e: Option<RouteError>)
      ensures e == Refusal(State(), groupIds, planIds)
    {
      if !Distinct(groupIds) || !Distinct(planIds) {
        return Some(DuplicateId);
      }
      if exists p | p in planIds :: p !in plans {
        return Some(PlanNotFound);
      }
      if exists g | g in groupIds :: g !in groups {
        return Some(UnknownGroup);
      }
      if exists c | c in chains :: chains[c].relayPool.Some? && chains[c].relayPool.value in groupIds {
        return Some(ForwardingGroup);
      }
      return None;
    }

    method IsolatePlans(planIds: seq<Id>, newIds: seq<Id>) returns (owned: set<Id>)
      requires Valid(State()) && |planIds| <= |newIds| && Distinct(planIds) && NewIds(State(), newIds)
      requires forall p | p in planIds :: p in plans
      modifies this
      ensures plans.Keys == old(plans).Keys && IsolatedSoFar(old(State()), State(), planIds, newIds, |planIds|)
      ensures owned == GroupsOf(State(), planIds)
    {
      owned := {};
      ghost var db := State();
      for i := 0 to |planIds|
        invariant plans.Keys == db.plans.Keys && IsolatedSoFar(db, State(), planIds, newIds, i)
        invariant owned == GroupsOf(State(), planIds[..i])
      {
        ghost var c := State();
        var groupId := IsolatePlanRouteGroup(planIds[i], newIds[i]);
        IsolateStep(db, c, State(), planIds, newIds, i);
        OneMoreGroup(c, State(), planIds, i);
        owned := owned + {groupId};
      }
      assert planIds[..|planIds|] == planIds;
    }

    method GrantRoutes(granted: set<Id>, routes: seq<NewRoute>)
      modifies this
      ensures State() == GrantedAll(old(State()), granted, routes, |routes|)
    {
      for i := 0 to |routes|
        invariant State() == GrantedAll(old(State()), granted, routes, i)
      {
        chains := chains[routes[i].id := Chain(routes[i].exit, None)];
        groupChains := groupChains + (set g | g in granted :: (g, routes[i].id));
        groupNodes := groupNodes + (set g | g in granted :: (g, routes[i].exit));
      }
    }

    /** Grants the routes to the explicit groups and to those of the plans just isolated. */
    method GrantBatch(groupIds: seq<Id>, planIds: seq<Id>, ghost newIds: seq<Id>, owned: set<Id>, routes: seq<NewRoute>,
                      ghost db: Db)
      requires |planIds| <= |newIds| && NewRoutes(db, routes) && Refusal(db, groupIds, planIds) == None
      requires plans.Keys == db.plans.Keys && IsolatedSoFar(db, State(), planIds, newIds, |planIds|)
      requires owned == GroupsOf(State(), planIds)
      modifies this
      ensures ReachesOnly(db, State(), SetOf(groupIds), planIds, routes)
    {
      ghost var isolated := State();
      GrantRoutes(SetOf(groupIds) + owned, routes);
      BatchReachesOnlyItsPlans(db, isolated, SetOf(groupIds), planIds, newIds, routes);
    }

    method Rollback(before: Db)
      modifies this
      ensures State() == before
    {
      plans, groups, chains, groupChains, groupNodes :=
        before.plans, before.groups, before.chains, before.groupChains, before.groupNodes;
    }
  }

  lemma OneMoreGroup(c: Db, d: Db, plans: seq<Id>, n: nat)
    requires n < |plans| && c.plans.Keys == d.plans.Keys && Distinct(plans) && forall p | p in plans :: p in c.plans
    requires forall q | q in c.plans && q != plans[n] :: d.plans[q] == c.plans[q]
    ensures GroupsOf(d, plans[..n + 1]) == GroupsOf(c, plans[..n]) + {d.plans[plans[n]]}
  {
    assert plans[..n + 1] == plans[..n] + [plans[n]];
  }
}
