/** The handler that creates several routes behind one entry and gives plans and groups access
    to them, in one transaction (api-server/internal/handlers/admin_node_chain_batch.go). */
module RouteBatch {
  import opened Base
  import opened ChainBatch
  import PlanRoutes

  datatype HandlerError = Access(refused: PlanRoutes.RouteError) | Creation(failed: BatchError)

  /** The new chains under the identifiers the database generates for them. */
  function Named(routes: seq<Route>, ids: seq<Id>): (r: seq<PlanRoutes.NewRoute>)
    requires |routes| == |ids|
    ensures |r| == |routes| && forall n | 0 <= n < |r| :: r[n] == PlanRoutes.NewRoute(ids[n], routes[n].exit)
  {
    seq(|routes|, n requires 0 <= n < |routes| => PlanRoutes.NewRoute(ids[n], routes[n].exit))
  }

  /** The routes created: with their reserved ports, between nodes that may be linked. */
  ghost predicate Created(c: NodeChains, before: seq<ChainRow>, asked: seq<Route>, routes: seq<Route>,
                          after: seq<ChainRow>)
    requires |asked| == |routes|
    reads c
  {
    && ExplicitOk(asked, |asked|, ClaimsIn(before)) && Reserved(asked, ClaimsIn(before), routes, |asked|)
    && Placed(routes, ClaimsIn(before))
    && (forall i | 0 <= i < |routes| :: NodeRefusal(c.fleet, routes[i]) == None)
    && after == before + RowsFor(c.fleet, routes)
  }

  // ----- One table, two views -----

  /** The relay rows are the chains of these names: one table, seen by ports and by access. */
  ghost predicate SameTable(names: seq<Id>, rows: seq<ChainRow>, chains: map<Id, PlanRoutes.Chain>) {
    && |names| == |rows| && PlanRoutes.Distinct(names)
    && forall n | 0 <= n < |rows| :: names[n] in chains && chains[names[n]] == PlanRoutes.Chain(rows[n].exit, None)
  }

  lemma StillSameTable(names: seq<Id>, rows: seq<ChainRow>, db: PlanRoutes.Db, d: PlanRoutes.Db, routes: seq<Route>,
                       ids: seq<Id>, more: seq<ChainRow>)
    requires |routes| == |ids| == |more| && SameTable(names, rows, db.chains)
    requires PlanRoutes.NewRoutes(db, Named(routes, ids)) && PlanRoutes.HasRoutes(db, d, Named(routes, ids), |routes|)
    requires forall n | 0 <= n < |more| :: more[n].exit == routes[n].exit
    ensures SameTable(names + ids, rows + more, d.chains)
  {
    var all, added := names + ids, Named(routes, ids);
    forall i, j | 0 <= i < j < |all| ensures all[i] != all[j] {
      if |names| <= j {
        assert added[j - |names|].id == all[j] && all[j] !in db.chains;
        if |names| <= i {
          assert added[i - |names|].id == all[i];
        }
      }
    }
    forall n | 0 <= n < |all|
      ensures all[n] in d.chains && d.chains[all[n]] == PlanRoutes.Chain((rows + more)[n].exit, None)
    {
      if |names| <= n {
        assert added[n - |names|].id == all[n];
      }
    }
  }

  class RouteHandler {
    const c: NodeChains
    const t: PlanRoutes.PlanTables
    ghost var names: seq<Id>

    ghost predicate Valid()
      reads this, c, t
    {
      c.Valid() && PlanRoutes.Valid(t.State()) && SameTable(names, c.rows, t.chains)
    }

    constructor (c: NodeChains, t: PlanRoutes.PlanTables, ghost names: seq<Id>)
      requires c.Valid() && PlanRoutes.Valid(t.State()) && SameTable(names, c.rows, t.chains)
      ensures this.c == c && this.t == t && this.names == names && Valid()
    {
      this.c, this.t, this.names := c, t, names;
    }

    /** All routes are created and granted, or nothing changes and the answer says why; a
        preview answers the same and changes nothing. */
    method Batch(requests: array<Route>, ids: seq<Id>, groupIds: seq<Id>, planIds: seq<Id>, newIds: seq<Id>,
                 preview: bool)
      returns (e: Option<HandlerError>)
      requires Valid() && KnownRoutes(requests[..]) && |ids| == requests.Length
      requires |planIds| <= |newIds| && PlanRoutes.NewIds(t.State(), newIds)
      requires PlanRoutes.NewRoutes(t.State(), Named(requests[..], ids))
      modifies this, c, t, requests
      ensures Valid()
      ensures e.Some? && e.value.Access? <==> PlanRoutes.Refusal(old(t.State()), groupIds, planIds).Some?
      ensures e.Some? && e.value.Access? ==>
                PlanRoutes.Refusal(old(t.State()), groupIds, planIds) == Some(e.value.refused)
      ensures e.Some? && e.value.Creation? ==>
                Explains(c.fleet, old(requests[..]), ClaimsIn(old(c.rows)), requests[..], e.value.failed)
      ensures e.Some? || preview ==> t.State() == old(t.State()) && c.rows == old(c.rows) && names == old(names)
      ensures e == None && !preview ==>
                && Created(c, old(c.rows), old(requests[..]), requests[..], c.rows)
                && names == old(names) + ids
                && PlanRoutes.ReachesOnly(old(t.State()), t.State(), PlanRoutes.SetOf(groupIds), planIds,
                                          Named(old(requests[..]), ids))
    {
      ghost var asked := requests[..];
      var before := t.State();
      var refused := t.CheckBatch(groupIds, planIds);
      if refused.Some? {
        return Some(Access(refused.value));
      }
      var owned := t.IsolatePlans(planIds, newIds);
      var failed := c.Batch(requests, preview);
      if failed.Some? {
        t.Rollback(before);
        return Some(Creation(failed.value));
      }
      assert Named(requests[..], ids) == Named(asked, ids);
      t.GrantBatch(groupIds, planIds, newIds, owned, Named(requests[..], ids), before);
      if preview {
        t.Rollback(before);
      } else {
        StillSameTable(names, old(c.rows), before, t.State(), asked, ids, RowsFor(c.fleet, requests[..]));
        names := names + ids;
      }
      return None;
    }
  }
}
