/** The triggers themselves, run row by row
    (api-server/internal/database/schema_direct_chain_port.go,
    api-server/internal/handlers/node_agent.go). */
module DirectChainTriggers {
  import opened Base
  import opened Sets
  import opened DirectChain

  lemma PortIgnoresChains(db: Db, chains: map<Id, ChainRow>, node: Id)
    ensures ListeningPort(db.(chains := chains), node) == ListeningPort(db, node)
  {
    if node in db.nodes {
      SamePort(db, db.(chains := chains), node);
    }
  }

  lemma CorrectedIgnoresChains(db: Db, chains: map<Id, ChainRow>, row: ChainRow)
    ensures Corrected(db.(chains := chains), row) == Corrected(db, row)
  {
    PortIgnoresChains(db, chains, row.exitNode);
  }

  lemma ResyncedTwice(db: Db, nodes: set<Id>, more: set<Id>)
    ensures Resynced(Resynced(db, nodes), more) == Resynced(db, nodes + more)
  {
    var d := Resynced(db, nodes);
    forall c | c in db.chains ensures Resynced(d, more).chains[c] == Resynced(db, nodes + more).chains[c] {
      CorrectedIgnoresChains(db, d.chains, d.chains[c]);
    }
  }

  lemma ResyncedNothing(db: Db, nodes: set<Id>)
    requires forall n | n in nodes :: n !in db.nodes
    ensures Resynced(db, nodes) == db
  {
    assert Resynced(db, nodes).chains == db.chains;
  }

  /** The nodes of the old and the new row of a change. */
  function RowNodes(was: Option<Inbound>, now: Option<Inbound>): set<Id> {
    (if was.Some? then {was.value.node} else {}) + (if now.Some? then {now.value.node} else {})
  }

  function RowAt(rows: map<Id, Inbound>, i: Id): Option<Inbound> {
    if i in rows then Some(rows[i]) else None
  }

  lemma TouchedOne(before: map<Id, Inbound>, after: map<Id, Inbound>, ids: set<Id>, i: Id)
    ensures Touched(before, after, ids + {i}) == Touched(before, after, ids)
            + RowNodes(RowAt(before, i), RowAt(after, i))
  {
  }

  /** The rows in `done` are rewritten for their new port. */
  ghost predicate PartlySynced(db: Db, d: Db, todo: set<Id>, done: set<Id>) {
    && d == db.(chains := d.chains) && d.chains.Keys == db.chains.Keys
    && forall c | c in db.chains ::
        d.chains[c] ==
        if c in todo && c in done then Corrected(db, db.chains[c]) else db.chains[c]
  }

  class Tables {
    var nodes: map<Id, int>
    var inbounds: map<Id, Inbound>
    var chains: map<Id, ChainRow>

    function State(): Db
      reads this
    {
      Db(nodes, inbounds, chains)
    }

    method NodeListeningPort(node: Id) returns (port: Option<int>)
      ensures port == ListeningPort(State(), node)
    {
      if node !in nodes {
        return None;
      }
      var serving := Serving(inbounds, node);
      if serving == {} {
        return Some(nodes[node]);
      }
      var oldest :| oldest in serving;
      var done := {oldest};
      while serving - done != {}
        invariant done <= serving && IsOldest(inbounds, done, oldest)
      {
        var i :| i in serving - done;
        oldest := if Before(inbounds, oldest, i) then oldest else i;
        done := done + {i};
      }
      NothingLeft(serving, done);
      OldestListens(State(), node, oldest);
      return Some(inbounds[oldest].port);
    }

    /** BEFORE INSERT OR UPDATE ON node_chains, for one row. */
    method BeforeChainWrite(row: ChainRow) returns (written: ChainRow)
      ensures written == Corrected(State(), row)
    {
      written := row;
      if row.relayPool == None && row.entryNode == None {
        var port := NodeListeningPort(row.exitNode);
        written := row.(exitPort := port.GetOr(row.exitPort));
      }
    }

    method WriteChains(rows: map<Id, ChainRow>) returns (ok: bool)
      modifies `chains
      ensures ok <==> Accepts(old(State()), Statement.WriteChains(rows))
      ensures State() == After(old(State()), Statement.WriteChains(rows))
    {
      if exists c | c in rows :: rows[c].exitNode !in nodes {
        return false;
      }
      ghost var db := State();
      var done: set<Id> := {};
      while rows.Keys - done != {}
        invariant done <= rows.Keys && State() == db.(chains := chains) && chains.Keys == db.chains.Keys + done
        invariant forall c | c in chains :: chains[c] == if c in done then Corrected(db, rows[c]) else db.chains[c]
      {
        var c :| c in rows.Keys - done;
        var row := BeforeChainWrite(rows[c]);
        CorrectedIgnoresChains(db, chains, rows[c]);
        chains := chains[c := row];
        done := done + {c};
      }
      NothingLeft(rows.Keys, done);
      assert chains == Written(db, rows).chains;
      return true;
    }

    /** Rewrites the direct chains of one node whose port differs, through the BEFORE trigger. */
    method SyncDirectChainExitPort(node: Id)
      modifies `chains
      ensures State() == Resynced(old(State()), {node})
    {
      ghost var db := State();
      var listening := NodeListeningPort(node);
      if listening == None {
        ResyncedNothing(db, {node});
        return;
      }
      var stale := set c | c in chains && Direct(chains[c]) && chains[c].exitNode == node
                         && chains[c].exitPort != listening.value;
      UpdateStale(stale, listening.value);
      assert chains == Resynced(db, {node}).chains;
    }

    method UpdateStale(stale: set<Id>, port: int)
      requires forall c | c in stale ::
                c in chains && Direct(chains[c])
                && ListeningPort(State(), chains[c].exitNode) == Some(port)
      modifies `chains
      ensures PartlySynced(old(State()), State(), stale, stale)
    {
      ghost var db := State();
      var done: set<Id> := {};
      while stale - done != {}
        invariant done <= stale && PartlySynced(db, State(), stale, done)
      {
        var c :| c in stale - done;
        var row := BeforeChainWrite(chains[c].(exitPort := port));
        CorrectedIgnoresChains(db, chains, chains[c].(exitPort := port));
        chains := chains[c := row];
        done := done + {c};
      }
      NothingLeft(stale, done);
    }

    /** AFTER INSERT OR DELETE OR UPDATE OF node_id, port, enabled ON inbounds, for one row. */
    method AfterInboundChange(was: Option<Inbound>, now: Option<Inbound>)
      modifies `chains
      ensures State() == Resynced(old(State()), RowNodes(was, now))
    {
      ghost var db := State();
      if was.Some? {
        SyncDirectChainExitPort(was.value.node);
      } else {
        ResyncedNothing(db, {});
      }
      if now.Some? && (was == None || now.value.node != was.value.node) {
        SyncDirectChainExitPort(now.value.node);
        ResyncedTwice(db, RowNodes(was, None), {now.value.node});
      }
      assert RowNodes(was, now) == if now.Some? && (was == None || now.value.node != was.value.node)
                                   then RowNodes(was, None) + {now.value.node} else RowNodes(was, None);
    }

    /** The row triggers of a statement, after all its rows have changed, in any order. */
    method AfterStatement(before: map<Id, Inbound>, ids: set<Id>)
      modifies `chains
      ensures State() == Resynced(old(State()), Touched(before, inbounds, ids))
    {
      ghost var db := State();
      var done: set<Id> := {};
      ResyncedNothing(db, {});
      assert Touched(before, inbounds, {}) == {};
      while ids - done != {}
        invariant done <= ids && State() == Resynced(db, Touched(before, inbounds, done))
      {
        var i :| i in ids - done;
        AfterInboundChange(RowAt(before, i), RowAt(inbounds, i));
        ResyncedTwice(db, Touched(before, inbounds, done), RowNodes(RowAt(before, i), RowAt(inbounds, i)));
        TouchedOne(before, inbounds, done, i);
        done := done + {i};
      }
      NothingLeft(ids, done);
    }

    method WriteInbounds(rows: map<Id, Inbound>) returns (ok: bool)
      modifies this
      ensures ok <==> Accepts(old(State()), Statement.WriteInbounds(rows))
      ensures State() == After(old(State()), Statement.WriteInbounds(rows))
    {
      if exists i | i in rows :: rows[i].node !in nodes {
        return false;
      }
      var before := inbounds;
      inbounds := inbounds + rows;
      AfterStatement(before, rows.Keys);
      return true;
    }

    method DeleteInbounds(ids: set<Id>)
      modifies this
      ensures State() == After(old(State()), Statement.DeleteInbounds(ids))
    {
      var before := inbounds;
      inbounds := Dropped(inbounds, ids);
      AfterStatement(before, ids);
    }

    /** Deleting a node cascades to its inbounds and chains; its inbounds' triggers find no
        node any more and leave the chains alone. */
    method DeleteNode(node: Id) returns (ok: bool)
      modifies this
      ensures ok <==> Accepts(old(State()), Statement.DeleteNode(node))
      ensures State() == After(old(State()), Statement.DeleteNode(node))
    {
      if exists c | c in chains :: chains[c].entryNode == Some(node) {
        return false;
      }
      var before, ids := inbounds, InboundsOn(State(), node);
      nodes := Dropped(nodes, {node});
      inbounds := Dropped(inbounds, ids);
      ghost var db := State();
      AfterStatement(before, ids);
      ResyncedNothing(db, Touched(before, inbounds, ids));
      chains := Dropped(chains, ChainsTo(State(), node));
      return true;
    }

    /** Registration sets nodes.port and rewrites the node's direct chain in one transaction. */
    method Register(node: Id, port: int, newChain: Id) returns (chain: Id)
      requires node in nodes && newChain !in chains
      modifies this
      ensures Accepts(old(State()), Statement.Register(node, port, chain))
      ensures State() == After(old(State()), Statement.Register(node, port, chain))
    {
      ghost var db := State();
      var direct := DirectTo(State(), node);
      nodes := nodes[node := port];
      chain := newChain;
      if direct != {} {
        chain :| chain in direct;
      }
      var old' := if chain in chains then chains[chain] else ChainRow(None, None, node, port);
      var row := BeforeChainWrite(old'.(exitPort := port));
      assert old'.(exitPort := port) == ChainRow(None, None, node, port);
      ghost var moved := State();
      chains := chains[chain := row];
      assert chains == Written(moved, map[chain := ChainRow(None, None, node, port)]).chains;
      chains := Dropped(chains, direct - {chain});
    }
  }
}
