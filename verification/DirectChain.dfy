/** The exit port of direct chains and the port their exit serves: the repair that brings
    them together once, and the triggers that keep them together under every statement that
    can move either (api-server/internal/database/schema_direct_chain_port.go). */
module DirectChain {
  import opened Base

  /** A UUID: 128 bits, compared as a number. */
  type Id = nat

  datatype Inbound = Inbound(node: Id, port: int, enabled: bool, createdAt: int)

  datatype ChainRow = ChainRow(relayPool: Option<Id>, entryNode: Option<Id>, exitNode: Id, exitPort: int)

  /** The tables nodes (with nodes.port), inbounds and node_chains. */
  datatype Db = Db(nodes: map<Id, int>, inbounds: map<Id, Inbound>, chains: map<Id, ChainRow>)

  predicate Direct(c: ChainRow) { c.relayPool == None && c.entryNode == None }

  /** Foreign keys. */
  ghost predicate Valid(db: Db) {
    && (forall i | i in db.inbounds :: db.inbounds[i].node in db.nodes)
    && (forall c | c in db.chains :: db.chains[c].exitNode in db.nodes)
  }

  // ----- node_listening_port -----

  /** The enabled inbounds of a node. */
  function Serving(inbounds: map<Id, Inbound>, node: Id): set<Id> {
    set i | i in inbounds && inbounds[i].node == node && inbounds[i].enabled
  }

  /** ORDER BY created_at, id */
  predicate Before(inbounds: map<Id, Inbound>, i: Id, j: Id)
    requires i in inbounds && j in inbounds
  {
    inbounds[i].createdAt < inbounds[j].createdAt || (inbounds[i].createdAt == inbounds[j].createdAt && i <= j)
  }

  ghost predicate IsOldest(inbounds: map<Id, Inbound>, ids: set<Id>, i: Id)
    requires ids <= inbounds.Keys
  {
    i in ids && forall j | j in ids :: Before(inbounds, i, j)
  }

  lemma {:induction false} OldestExists(inbounds: map<Id, Inbound>, ids: set<Id>)
    requires ids <= inbounds.Keys && ids != {}
    ensures exists i :: IsOldest(inbounds, ids, i)
    decreases |ids|
  {
    var x :| x in ids;
    var rest := ids - {x};
    if rest == {} {
      assert ids == {x};
      assert IsOldest(inbounds, ids, x);
    } else {
      OldestExists(inbounds, rest);
      var i :| IsOldest(inbounds, rest, i);
      assert ids == rest + {x};
      assert IsOldest(inbounds, ids, if Before(inbounds, i, x) then i else x);
    }
  }

  /** The port the node listens on: that of its oldest enabled inbound, or nodes.port when it
      has none; nothing when there is no such node. */
  ghost function ListeningPort(db: Db, node: Id): Option<int> {
    if node !in db.nodes then None
    else if Serving(db.inbounds, node) == {} then Some(db.nodes[node])
    else
      OldestExists(db.inbounds, Serving(db.inbounds, node));
      var i :| IsOldest(db.inbounds, Serving(db.inbounds, node), i);
      Some(db.inbounds[i].port)
  }

  lemma OldestListens(db: Db, node: Id, i: Id)
    requires node in db.nodes && IsOldest(db.inbounds, Serving(db.inbounds, node), i)
    ensures ListeningPort(db, node) == Some(db.inbounds[i].port)
  {
    var serving := Serving(db.inbounds, node);
    var j :| IsOldest(db.inbounds, serving, j) && ListeningPort(db, node) == Some(db.inbounds[j].port);
    assert IsOldest(db.inbounds, serving, i) && IsOldest(db.inbounds, serving, j);
    assert Before(db.inbounds, i, j) && Before(db.inbounds, j, i);
  }

  /** Every direct chain of an existing node has the port the node listens on. */
  ghost predicate Synced(db: Db) { forall node | node in db.nodes :: SyncedAt(db, node) }

  ghost predicate SyncedAt(db: Db, node: Id) {
    forall c | c in db.chains && Direct(db.chains[c]) && db.chains[c].exitNode == node ::
      Some(db.chains[c].exitPort) == ListeningPort(db, node)
  }

  // ----- What the triggers do to a statement -----

  /** The BEFORE trigger: what a chain row is written as. */
  ghost function Corrected(db: Db, row: ChainRow): ChainRow {
    var listening := ListeningPort(db, row.exitNode);
    if Direct(row) && listening.Some? then row.(exitPort := listening.value) else row
  }

  ghost function Written(db: Db, rows: map<Id, ChainRow>): Db {
    db.(chains := db.chains + map c | c in rows :: Corrected(db, rows[c]))
  }

  /** The AFTER triggers: the direct chains of these nodes are rewritten. */
  ghost function Resynced(db: Db, nodes: set<Id>): Db {
    db.(chains := map c | c in db.chains ::
                    if db.chains[c].exitNode in nodes then Corrected(db, db.chains[c]) else db.chains[c])
  }

  /** The nodes of the rows before and after. */
  function Touched(before: map<Id, Inbound>, after: map<Id, Inbound>, ids: set<Id>): set<Id> {
    (set i | i in ids && i in before :: before[i].node) + (set i | i in ids && i in after :: after[i].node)
  }

  ghost function InboundsChanged(db: Db, after: map<Id, Inbound>, ids: set<Id>): Db {
    Resynced(db.(inbounds := after), Touched(db.inbounds, after, ids))
  }

  function Dropped<V>(m: map<Id, V>, ids: set<Id>): map<Id, V> { m - ids }

  function InboundsOn(db: Db, node: Id): set<Id> {
    set i | i in db.inbounds && db.inbounds[i].node == node
  }

  function ChainsTo(db: Db, node: Id): set<Id> {
    set c | c in db.chains && db.chains[c].exitNode == node
  }

  function DirectTo(db: Db, node: Id): set<Id> {
    set c | c in db.chains && Direct(db.chains[c]) && db.chains[c].exitNode == node
  }

  /** A statement, for any number of rows; a registration is a short transaction. */
  datatype Statement =
    | WriteChains(chains: map<Id, ChainRow>)
    | DeleteChains(chainIds: set<Id>)
    | WriteInbounds(rows: map<Id, Inbound>)
    | DeleteInbounds(rowIds: set<Id>)
    | InsertNode(node: Id, port: int)
    | DeleteNode(gone: Id)
    | Register(registered: Id, servicePort: int, chain: Id)

  /** The database accepts the statement: references exist, identifiers are not reused. */
  predicate Accepts(db: Db, s: Statement) {
    match s
    case WriteChains(rows) => forall c | c in rows :: rows[c].exitNode in db.nodes
    case WriteInbounds(rows) => forall i | i in rows :: rows[i].node in db.nodes
    case InsertNode(node, _) => node !in db.nodes
    case DeleteNode(node) => forall c | c in db.chains :: db.chains[c].entryNode != Some(node)
    case Register(node, _, chain) =>
      node in db.nodes && (if DirectTo(db, node) == {} then chain !in db.chains else chain in DirectTo(db, node))
    case _ => true
  }

  ghost function After(db: Db, s: Statement): Db {
    if !Accepts(db, s) then db
    else
      match s
      case WriteChains(rows) => Written(db, rows)
      case DeleteChains(ids) => db.(chains := Dropped(db.chains, ids))
      case WriteInbounds(rows) => InboundsChanged(db, db.inbounds + rows, rows.Keys)
      case DeleteInbounds(ids) => InboundsChanged(db, Dropped(db.inbounds, ids), ids)
      case InsertNode(node, port) => db.(nodes := db.nodes[node := port])
      case DeleteNode(node) =>
        Db(Dropped(db.nodes, {node}), Dropped(db.inbounds, InboundsOn(db, node)),
           Dropped(db.chains, ChainsTo(db, node)))
      case Register(node, port, chain) => Registered(db, node, port, chain)
  }

  /** nodes.port is set, one direct chain is written, and any other is deleted. */
  ghost function Registered(db: Db, node: Id, port: int, chain: Id): Db {
    var moved := db.(nodes := db.nodes[node := port]);
    var written := Written(moved, map[chain := ChainRow(None, None, node, port)]);
    written.(chains := Dropped(written.chains, DirectTo(db, node) - {chain}))
  }

  // ----- Every statement keeps the ports in step -----

  lemma SamePort(db: Db, d: Db, node: Id)
    requires node in db.nodes && node in d.nodes && db.nodes[node] == d.nodes[node]
    requires Serving(db.inbounds, node) == Serving(d.inbounds, node)
    requires forall i | i in Serving(db.inbounds, node) :: db.inbounds[i] == d.inbounds[i]
    ensures ListeningPort(db, node) == ListeningPort(d, node)
  {
    var serving := Serving(db.inbounds, node);
    if serving != {} {
      OldestExists(db.inbounds, serving);
      var i :| IsOldest(db.inbounds, serving, i);
      OldestListens(db, node, i);
      assert IsOldest(d.inbounds, serving, i);
      OldestListens(d, node, i);
    }
  }

  lemma UntouchedPort(db: Db, after: map<Id, Inbound>, ids: set<Id>, node: Id)
    requires node in db.nodes && node !in Touched(db.inbounds, after, ids)
    requires forall i | i !in ids :: (i in db.inbounds <==> i in after) && (i in after ==> after[i] == db.inbounds[i])
    ensures ListeningPort(db, node) == ListeningPort(db.(inbounds := after), node)
  {
    forall i ensures i in Serving(db.inbounds, node) <==> i in Serving(after, node) {
    }
    SamePort(db, db.(inbounds := after), node);
  }

  lemma WrittenIsSynced(db: Db, rows: map<Id, ChainRow>)
    requires Synced(db)
    ensures Synced(Written(db, rows))
  {
    var d := Written(db, rows);
    forall node | node in d.nodes ensures SyncedAt(d, node) {
      SamePort(db, d, node);
      assert SyncedAt(db, node);
    }
  }

  lemma ResyncedAt(db: Db, nodes: set<Id>, node: Id)
    requires node in db.nodes && (node in nodes || SyncedAt(db, node))
    ensures SyncedAt(Resynced(db, nodes), node)
  {
    SamePort(db, Resynced(db, nodes), node);
  }

  lemma InboundsAreSynced(db: Db, after: map<Id, Inbound>, ids: set<Id>)
    requires Synced(db)
    requires forall i | i !in ids :: (i in db.inbounds <==> i in after) && (i in after ==> after[i] == db.inbounds[i])
    ensures Synced(InboundsChanged(db, after, ids))
  {
    var changed := db.(inbounds := after);
    forall node | node in db.nodes ensures SyncedAt(InboundsChanged(db, after, ids), node) {
      if node !in Touched(db.inbounds, after, ids) {
        UntouchedPort(db, after, ids, node);
        assert SyncedAt(db, node);
        assert SyncedAt(changed, node);
      }
      ResyncedAt(changed, Touched(db.inbounds, after, ids), node);
    }
  }

  lemma DeletedNodeIsSynced(db: Db, node: Id)
    requires Synced(db) && Accepts(db, DeleteNode(node))
    ensures Synced(After(db, DeleteNode(node)))
  {
    var d := After(db, DeleteNode(node));
    forall n | n in d.nodes ensures SyncedAt(d, n) {
      assert Serving(db.inbounds, n) == Serving(d.inbounds, n);
      SamePort(db, d, n);
      assert SyncedAt(db, n);
    }
  }

  lemma RegisteredIsSynced(db: Db, node: Id, port: int, chain: Id)
    requires Synced(db) && Accepts(db, Register(node, port, chain))
    ensures Synced(Registered(db, node, port, chain)) && DirectTo(Registered(db, node, port, chain), node) == {chain}
  {
    var moved, d := db.(nodes := db.nodes[node := port]), Registered(db, node, port, chain);
    forall n | n in d.nodes ensures SyncedAt(d, n) {
      SamePort(moved, d, n);
      if n != node {
        SamePort(db, moved, n);
        assert SyncedAt(db, n);
      }
    }
  }

  lemma StatementKeeps(db: Db, s: Statement)
    requires Valid(db) && Synced(db)
    ensures Valid(After(db, s)) && Synced(After(db, s))
  {
    if Accepts(db, s) {
      match s
      case WriteChains(rows) => WrittenIsSynced(db, rows);
      case DeleteChains(ids) => FewerChains(db, ids);
      case WriteInbounds(rows) => InboundsAreSynced(db, db.inbounds + rows, rows.Keys);
      case DeleteInbounds(ids) => InboundsAreSynced(db, Dropped(db.inbounds, ids), ids);
      case InsertNode(node, port) => NewNodeIsSynced(db, node, port);
      case DeleteNode(node) => DeletedNodeIsSynced(db, node);
      case Register(node, port, chain) => RegisteredIsSynced(db, node, port, chain);
    }
  }

  lemma FewerChains(db: Db, ids: set<Id>)
    requires Synced(db)
    ensures Synced(db.(chains := Dropped(db.chains, ids)))
  {
    var d := db.(chains := Dropped(db.chains, ids));
    forall node | node in d.nodes ensures SyncedAt(d, node) {
      SamePort(db, d, node);
      assert SyncedAt(db, node);
    }
  }

  lemma NewNodeIsSynced(db: Db, node: Id, port: int)
    requires Valid(db) && Synced(db) && node !in db.nodes
    ensures Synced(db.(nodes := db.nodes[node := port]))
  {
    var d := db.(nodes := db.nodes[node := port]);
    forall n | n in d.nodes ensures SyncedAt(d, n) {
      if n != node {
        SamePort(db, d, n);
        assert SyncedAt(db, n);
      }
    }
  }

  function Last(run: seq<Db>): Db
    requires run != []
  {
    run[|run| - 1]
  }

  /** The repair of older rows brings any tables in step. */
  lemma RepairSyncs(db: Db)
    requires Valid(db)
    ensures Valid(Resynced(db, db.nodes.Keys)) && Synced(Resynced(db, db.nodes.Keys))
  {
    forall node | node in db.nodes ensures SyncedAt(Resynced(db, db.nodes.Keys), node) {
      ResyncedAt(db, db.nodes.Keys, node);
    }
  }

  /** MAIN RESULT. In every state that statements on nodes, inbounds and chains can lead to,
      every direct chain has the port of its exit's oldest enabled inbound, or nodes.port
      when the exit has none. */
  lemma {:induction false} RunsStaySynced(run: seq<Db>, statements: seq<Statement>)
    requires |run| == |statements| + 1 && Valid(run[0]) && Synced(run[0])
    requires forall k | 0 <= k < |statements| :: run[k + 1] == After(run[k], statements[k])
    ensures Valid(Last(run)) && Synced(Last(run))
  {
    var n := |statements|;
    if n > 0 {
      RunsStaySynced(run[..n], statements[..n - 1]);
      StatementKeeps(run[n - 1], statements[n - 1]);
      assert run[n] == After(run[n - 1], statements[n - 1]);
    }
  }

  /** Once any tables have been repaired, in every state that statements lead to
      every direct chain has the port its exit listens on. */
  lemma RepairedRunsStaySynced(db: Db, run: seq<Db>, statements: seq<Statement>)
    requires Valid(db) && |run| == |statements| + 1 && run[0] == Resynced(db, db.nodes.Keys)
    requires forall k | 0 <= k < |statements| :: run[k + 1] == After(run[k], statements[k])
    ensures Valid(Last(run)) && Synced(Last(run))
  {
    RepairSyncs(db);
    RunsStaySynced(run, statements);
  }

  /** nodes.port alone, changed by anything but a registration, breaks the agreement exactly
      when the node has a direct chain, no enabled inbound, and a new port. */
  lemma BarePortChange(db: Db, node: Id, port: int)
    requires Synced(db) && node in db.nodes
    ensures Synced(db.(nodes := db.nodes[node := port])) <==>
            DirectTo(db, node) == {} || Serving(db.inbounds, node) != {} || port == db.nodes[node]
  {
    var d := db.(nodes := db.nodes[node := port]);
    forall n | n in d.nodes && n != node ensures SyncedAt(d, n) {
      SamePort(db, d, n);
      assert SyncedAt(db, n);
    }
    assert SyncedAt(db, node);
    forall c ensures c in DirectTo(db, node) <==> c in d.chains && Direct(d.chains[c]) && d.chains[c].exitNode == node {
    }
    if Serving(db.inbounds, node) != {} || port == db.nodes[node] {
      SamePortAnyway(db, node, port);
      assert SyncedAt(d, node);
    } else if DirectTo(db, node) != {} {
      var c :| c in DirectTo(db, node);
      assert Some(d.chains[c].exitPort) == ListeningPort(db, node);
      assert !SyncedAt(d, node);
    } else {
      assert SyncedAt(d, node);
    }
  }

  lemma SamePortAnyway(db: Db, node: Id, port: int)
    requires node in db.nodes && (Serving(db.inbounds, node) != {} || port == db.nodes[node])
    ensures ListeningPort(db.(nodes := db.nodes[node := port]), node) == ListeningPort(db, node)
  {
    var serving := Serving(db.inbounds, node);
    if serving != {} {
      OldestExists(db.inbounds, serving);
      var i :| IsOldest(db.inbounds, serving, i);
      OldestListens(db, node, i);
      OldestListens(db.(nodes := db.nodes[node := port]), node, i);
    }
  }
}
