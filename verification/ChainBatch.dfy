/** Creating several relay chains in one transaction: ports are reserved first, explicit
    requests before automatic ones, and every chain then allocates its port once more
    against the current claims (api-server/internal/handlers/admin_node_chain_batch.go,
    admin_node_chain_create.go, admin_node_chain_ports.go). */
module ChainBatch {
  import opened Base
  import opened Ports
  import opened EntryPorts
  import opened DeviceConfig

  type Id = string

  /** A validated request for a relay chain. Entry port 0 asks for an automatic port, exit
      port 0 for the port the exit listens on, and host "" for whatever the entry's is. */
  datatype Route = Route(entry: Id, host: string, entryPort: int, exit: Id, exitPort: int, transport: Transport)

  datatype BatchError = PortTaken | InvalidPortRequested | NoPortsLeft | NodeRefused(reason: NodeError)

  datatype NodeError =
    | EntryNotFound | EntryCannotForward | ExitNotFound | ExitWithoutPort | ExitTerminatesNothing | ExitUnregistered
    | NoManagedHost | HostMismatch | BadExitPort

  function ClaimOf(q: Route): PortClaim { PortClaim(q.entryPort, q.transport) }

  function ClaimsOf(routes: seq<Route>): (r: seq<PortClaim>)
    ensures |r| == |routes| && forall n | 0 <= n < |r| :: r[n] == ClaimOf(routes[n])
  {
    seq(|routes|, n requires 0 <= n < |routes| => ClaimOf(routes[n]))
  }

  ghost predicate KnownRoutes(routes: seq<Route>) { forall n | 0 <= n < |routes| :: Known(routes[n].transport) }

  // ----- What a reservation must be -----

  /** The claims of the routes that asked for a port, or of those that did not, among the
      first n, with the ports they have in `routes`. */
  ghost function Chosen(asked: seq<Route>, routes: seq<Route>, n: nat, explicit: bool): seq<PortClaim>
    requires n <= |asked| == |routes|
  {
    if n == 0 then []
    else
      var before := Chosen(asked, routes, n - 1, explicit);
      if (asked[n - 1].entryPort != 0) == explicit then before + [ClaimOf(routes[n - 1])] else before
  }

  lemma {:induction false} ChosenHas(asked: seq<Route>, routes: seq<Route>, n: nat, explicit: bool, k: nat)
    requires k < n <= |asked| == |routes| && (asked[k].entryPort != 0) == explicit
    ensures ClaimOf(routes[k]) in Chosen(asked, routes, n, explicit)
    decreases n
  {
    if k < n - 1 {
      ChosenHas(asked, routes, n - 1, explicit, k);
    }
  }

  /** Every requested port can be granted beside the fleet's claims and the requests before it. */
  ghost predicate ExplicitOk(asked: seq<Route>, n: nat, taken: seq<PortClaim>)
    requires n <= |asked|
  {
    forall i | 0 <= i < n && asked[i].entryPort != 0 ::
      Grantable(asked[i].entryPort, asked[i].transport, taken + Chosen(asked, asked, i, true))
  }

  /** Request i is the first that cannot be granted, because of a claim or of its number. */
  ghost predicate FailsAt(asked: seq<Route>, taken: seq<PortClaim>, i: nat, e: BatchError)
    requires i < |asked|
  {
    var port, want, reserved := asked[i].entryPort, asked[i].transport, taken + Chosen(asked, asked, i, true);
    && port != 0 && ExplicitOk(asked, i, taken) && !Grantable(port, want, reserved)
    && e == if Blocked(reserved, port, want) then PortTaken else InvalidPortRequested
  }

  /** What the automatic route i must avoid: the fleet, every explicit request of the batch,
      and the automatic routes before it. */
  ghost function Avoids(asked: seq<Route>, routes: seq<Route>, i: nat, taken: seq<PortClaim>): seq<PortClaim>
    requires i <= |asked| == |routes|
  {
    taken + Chosen(asked, asked, |asked|, true) + Chosen(asked, routes, i, false)
  }

  /** Automatic route i has the least port that is free of what it must avoid. */
  ghost predicate Served(asked: seq<Route>, taken: seq<PortClaim>, routes: seq<Route>, i: nat)
    requires i < |asked| == |routes|
  {
    FirstFree(RELAY_RANGE.start, asked[i].transport, Avoids(asked, routes, i, taken)) == Some(routes[i].entryPort)
  }

  /** Requested ports stay as they are, and each of the first n automatic routes has the
      least free port. */
  ghost predicate Reserved(asked: seq<Route>, taken: seq<PortClaim>, routes: seq<Route>, n: nat)
    requires n <= |asked| == |routes|
  {
    && (forall i | 0 <= i < |asked| :: routes[i] == asked[i].(entryPort := routes[i].entryPort))
    && (forall i | 0 <= i < |asked| && (asked[i].entryPort != 0 || i >= n) :: routes[i] == asked[i])
    && (forall i | 0 <= i < n && asked[i].entryPort == 0 :: Served(asked, taken, routes, i))
  }

  /** Automatic route i finds every port of the relay range blocked. */
  ghost predicate FullAt(asked: seq<Route>, taken: seq<PortClaim>, routes: seq<Route>, i: nat)
    requires i < |asked| == |routes|
  {
    && asked[i].entryPort == 0 && Reserved(asked, taken, routes, i)
    && FirstFree(RELAY_RANGE.start, asked[i].transport, Avoids(asked, routes, i, taken)) == None
  }

  lemma SameChosen(asked: seq<Route>, routes: seq<Route>, routes': seq<Route>, n: nat, explicit: bool)
    requires n <= |asked| == |routes| == |routes'| && routes[..n] == routes'[..n]
    ensures Chosen(asked, routes, n, explicit) == Chosen(asked, routes', n, explicit)
  {
    if n > 0 {
      assert routes[..n][..n - 1] == routes[..n - 1] && routes'[..n][..n - 1] == routes'[..n - 1];
      SameChosen(asked, routes, routes', n - 1, explicit);
      assert routes[..n][n - 1] == routes'[..n][n - 1];
    }
  }

  lemma SameServed(asked: seq<Route>, taken: seq<PortClaim>, routes: seq<Route>, routes': seq<Route>, i: nat)
    requires i < |asked| == |routes| == |routes'| && routes[..i] == routes'[..i]
    ensures Avoids(asked, routes, i, taken) == Avoids(asked, routes', i, taken)
    ensures routes[i] == routes'[i] ==> (Served(asked, taken, routes, i) <==> Served(asked, taken, routes', i))
  {
    SameChosen(asked, routes, routes', i, false);
  }

  function WithPort(routes: seq<Route>, n: nat, port: int): seq<Route>
    requires n < |routes|
  {
    routes[n := routes[n].(entryPort := port)]
  }

  lemma ReserveOne(asked: seq<Route>, taken: seq<PortClaim>, routes: seq<Route>, n: nat, port: int)
    requires n < |asked| == |routes| && Reserved(asked, taken, routes, n) && asked[n].entryPort == 0
    requires FirstFree(RELAY_RANGE.start, asked[n].transport, Avoids(asked, routes, n, taken)) == Some(port)
    ensures Reserved(asked, taken, WithPort(routes, n, port), n + 1)
  {
    var more := WithPort(routes, n, port);
    SameServed(asked, taken, routes, more, n);
    assert Served(asked, taken, more, n);
    forall i | 0 <= i < n && asked[i].entryPort == 0 ensures Served(asked, taken, more, i) {
      assert Served(asked, taken, routes, i);
      SameServed(asked, taken, routes, more, i);
    }
  }

  lemma AvoidOne(asked: seq<Route>, taken: seq<PortClaim>, routes: seq<Route>, n: nat, port: int)
    requires n < |asked| == |routes| && asked[n].entryPort == 0
    ensures Avoids(asked, WithPort(routes, n, port), n + 1, taken) ==
            Avoids(asked, routes, n, taken) + [PortClaim(port, routes[n].transport)]
  {
    SameChosen(asked, routes, WithPort(routes, n, port), n, false);
  }

  // ----- Reserving, in place -----

  method AskExplicit(q: Route, reserved: seq<PortClaim>) returns (e: Option<BatchError>)
    requires Known(q.transport) && q.entryPort != 0
    ensures e == if Grantable(q.entryPort, q.transport, reserved) then None
                 else Some(if Blocked(reserved, q.entryPort, q.transport) then PortTaken else InvalidPortRequested)
  {
    var r := AllocateEntryPort(q.entryPort, q.transport, reserved);
    if r.Err? {
      return Some(if Blocked(reserved, q.entryPort, q.transport) then PortTaken else InvalidPortRequested);
    }
    return None;
  }

  method ReserveExplicit(requests: array<Route>, taken: seq<PortClaim>)
    returns (e: Option<BatchError>, reserved: seq<PortClaim>)
    requires KnownRoutes(requests[..])
    ensures e == None <==> ExplicitOk(requests[..], requests.Length, taken)
    ensures e == None ==> reserved == taken + Chosen(requests[..], requests[..], requests.Length, true)
    ensures e.Some? ==> exists i: nat | i < requests.Length :: FailsAt(requests[..], taken, i, e.value)
  {
    reserved := taken;
    ghost var asked := requests[..];
    for i := 0 to requests.Length
      invariant ExplicitOk(asked, i, taken) && reserved == taken + Chosen(asked, asked, i, true)
    {
      if requests[i].entryPort == 0 {
        continue;
      }
      e := AskExplicit(requests[i], reserved);
      if e.Some? {
        assert FailsAt(requests[..], taken, i, e.value);
        return;
      }
      reserved := reserved + [ClaimOf(requests[i])];
    }
    return None, reserved;
  }

  method SetPort(requests: array<Route>, i: nat, port: int)
    requires i < requests.Length
    modifies requests
    ensures requests[..] == WithPort(old(requests[..]), i, port)
  {
    requests[i] := requests[i].(entryPort := port);
  }

  /** The loop's step, for an automatic route and for another. */
  lemma AutomaticStep(asked: seq<Route>, taken: seq<PortClaim>, routes: seq<Route>, n: nat, port: int)
    requires n < |asked| == |routes| && Reserved(asked, taken, routes, n) && asked[n].entryPort == 0
    requires FirstFree(RELAY_RANGE.start, asked[n].transport, Avoids(asked, routes, n, taken)) == Some(port)
    ensures var more := WithPort(routes, n, port);
            && Reserved(asked, taken, more, n + 1)
            && Avoids(asked, more, n + 1, taken) == Avoids(asked, routes, n, taken)
               + [PortClaim(port, asked[n].transport)]
  {
    ReserveOne(asked, taken, routes, n, port);
    AvoidOne(asked, taken, routes, n, port);
  }

  lemma ExplicitStays(asked: seq<Route>, taken: seq<PortClaim>, routes: seq<Route>, n: nat)
    requires n < |asked| == |routes| && Reserved(asked, taken, routes, n) && asked[n].entryPort != 0
    ensures Reserved(asked, taken, routes, n + 1)
            && Avoids(asked, routes, n + 1, taken) == Avoids(asked, routes, n, taken)
  {
  }

  method AskAutomatic(want: Transport, reserved: seq<PortClaim>) returns (port: Option<int>)
    requires Known(want)
    ensures port == FirstFree(RELAY_RANGE.start, want, reserved) && (port == None ==> |reserved| >= 1000)
  {
    var r := AllocateEntryPort(0, want, reserved);
    AutomaticAllocation(want, reserved, r);
    return if r.Ok? then Some(r.value) else None;
  }

  method ReserveAutomatic(requests: array<Route>, ghost taken: seq<PortClaim>, explicit: seq<PortClaim>)
    returns (e: Option<BatchError>)
    requires KnownRoutes(requests[..]) && explicit == taken + Chosen(requests[..], requests[..], requests.Length, true)
    modifies requests
    ensures e == None ==> Reserved(old(requests[..]), taken, requests[..], requests.Length)
    ensures e.Some? ==> e.value == NoPortsLeft && |taken| + requests.Length > 1000
    ensures e.Some? ==> exists i: nat | i < requests.Length :: FullAt(old(requests[..]), taken, requests[..], i)
  {
    var reserved := explicit;
    ghost var asked := requests[..];
    for i := 0 to requests.Length
      invariant Reserved(asked, taken, requests[..], i) && reserved == Avoids(asked, requests[..], i, taken)
    {
      ghost var now := requests[..];
      if requests[i].entryPort != 0 {
        ExplicitStays(asked, taken, now, i);
        continue;
      }
      var port := AskAutomatic(requests[i].transport, reserved);
      if port == None {
        AvoidsFew(asked, now, i, taken);
        assert FullAt(asked, taken, requests[..], i);
        return Some(NoPortsLeft);
      }
      AutomaticStep(asked, taken, now, i, port.value);
      reserved := reserved + [PortClaim(port.value, requests[i].transport)];
      SetPort(requests, i, port.value);
    }
    return None;
  }

  lemma ChosenFew(asked: seq<Route>, routes: seq<Route>, n: nat)
    requires n <= |asked| == |routes|
    ensures |Chosen(asked, asked, n, true)| + |Chosen(asked, routes, n, false)| == n
  {
  }

  lemma {:induction false} ChosenGrows(asked: seq<Route>, n: nat, m: nat)
    requires n <= m <= |asked|
    ensures |Chosen(asked, asked, m, true)| <= |Chosen(asked, asked, n, true)| + (m - n)
    decreases m - n
  {
    if n < m {
      ChosenGrows(asked, n, m - 1);
    }
  }

  lemma SkipsAutomatic(asked: seq<Route>, i: nat)
    requires i < |asked| && asked[i].entryPort == 0
    ensures Chosen(asked, asked, i + 1, true) == Chosen(asked, asked, i, true)
  {
  }

  /** An automatic route still to be served leaves room for one more claim. */
  lemma AvoidsFew(asked: seq<Route>, routes: seq<Route>, i: nat, taken: seq<PortClaim>)
    requires i < |asked| == |routes| && asked[i].entryPort == 0
    ensures |Avoids(asked, routes, i, taken)| < |taken| + |asked|
  {
    ChosenFew(asked, routes, i);
    SkipsAutomatic(asked, i);
    ChosenGrows(asked, i + 1, |asked|);
  }

  // ----- What a reservation gives -----

  /** Every route has a port of its own beside the fleet's claims. */
  ghost predicate Placed(routes: seq<Route>, taken: seq<PortClaim>) {
    && (forall i | 0 <= i < |routes| ::
        routes[i].entryPort != 0 && Grantable(routes[i].entryPort, routes[i].transport, taken))
    && ConflictFree(ClaimsOf(routes))
  }

  lemma BlockedMore(few: seq<PortClaim>, many: seq<PortClaim>, port: int, want: Transport)
    requires forall c | c in few :: c in many
    ensures Blocked(few, port, want) ==> Blocked(many, port, want)
  {
  }

  lemma ReservedOne(asked: seq<Route>, taken: seq<PortClaim>, routes: seq<Route>, j: nat)
    requires j < |asked| == |routes| && ExplicitOk(asked, |asked|, taken) && Reserved(asked, taken, routes, |asked|)
    ensures routes[j].entryPort != 0 && Grantable(routes[j].entryPort, routes[j].transport, taken)
    ensures forall i | 0 <= i < |routes|
            && (if asked[j].entryPort != 0 then i < j && asked[i].entryPort != 0
                else i < j || asked[i].entryPort != 0) ::
              !ConflictsWith(ClaimOf(routes[i]), routes[j].entryPort, routes[j].transport)
  {
    var avoided := if asked[j].entryPort != 0 then taken + Chosen(asked, asked, j, true)
                   else Avoids(asked, routes, j, taken);
    assert !Blocked(avoided, routes[j].entryPort, routes[j].transport);
    BlockedMore(taken, avoided, routes[j].entryPort, routes[j].transport);
    forall i | 0 <= i < |routes| && (if asked[j].entryPort != 0 then i < j && asked[i].entryPort != 0
                                     else i < j || asked[i].entryPort != 0)
      ensures ClaimOf(routes[i]) in avoided
    {
      if asked[i].entryPort == 0 {
        ChosenHas(asked, routes, j, false, i);
      } else {
        assert routes[i] == asked[i];
        ChosenHas(asked, asked, if asked[j].entryPort != 0 then j else |asked|, true, i);
      }
    }
  }

  /** MAIN RESULT. A reservation leaves every requested port as it was and gives all routes
      ports that conflict neither with the fleet's claims nor with each other. */
  lemma ReservedIsPlaced(asked: seq<Route>, taken: seq<PortClaim>, routes: seq<Route>)
    requires |asked| == |routes| && ExplicitOk(asked, |asked|, taken) && Reserved(asked, taken, routes, |asked|)
    ensures Placed(routes, taken)
    ensures forall i | 0 <= i < |asked| ::
              routes[i] == asked[i].(entryPort := routes[i].entryPort)
                  && (asked[i].entryPort != 0 ==> routes[i] == asked[i])
  {
    forall i | 0 <= i < |routes|
      ensures routes[i].entryPort != 0 && Grantable(routes[i].entryPort, routes[i].transport, taken)
    {
      ReservedOne(asked, taken, routes, i);
    }
    var claims := ClaimsOf(routes);
    forall i, j | 0 <= i < j < |routes| ensures !ConflictsWith(claims[i], claims[j].port, claims[j].transport) {
      ReservedOne(asked, taken, routes, i);
      ReservedOne(asked, taken, routes, j);
    }
  }

  /** The claims are the fleet's and those of the routes before route i, in any order. */
  ghost predicate ClaimsBefore(routes: seq<Route>, taken: seq<PortClaim>, i: nat, now: seq<PortClaim>)
    requires i < |routes|
  {
    forall c | c in now :: c in taken || c in ClaimsOf(routes)[..i]
  }

  lemma NextIsFree(routes: seq<Route>, taken: seq<PortClaim>, i: nat, now: seq<PortClaim>)
    requires i < |routes| && Placed(routes, taken) && ClaimsBefore(routes, taken, i, now)
    ensures routes[i].entryPort != 0 && Grantable(routes[i].entryPort, routes[i].transport, now)
  {
    var claims := ClaimsOf(routes);
    forall c | c in now ensures !ConflictsWith(c, routes[i].entryPort, routes[i].transport) {
      if c in claims[..i] {
        var k :| 0 <= k < i && claims[..i][k] == c;
        assert claims[k] == c && !ConflictsWith(claims[k], claims[i].port, claims[i].transport);
      }
    }
  }

  /** MAIN RESULT. When route i of a batch allocates again, against the fleet's claims and
      those of the routes before it read in any order, it gets the very port reserved. */
  lemma ReallocationAgrees(routes: seq<Route>, taken: seq<PortClaim>, i: nat, now: seq<PortClaim>,
                           r: Result<int, AllocError>)
    requires i < |routes| && Placed(routes, taken) && Known(routes[i].transport) && ClaimsBefore(routes, taken, i, now)
    requires Allocates(routes[i].entryPort, routes[i].transport, now, r)
    ensures r == Ok(routes[i].entryPort)
  {
    NextIsFree(routes, taken, i, now);
  }

  // ----- The nodes of a chain -----

  datatype Node = Node(role: Role, ip: Addr, pending: bool, listening: Option<int>)

  /** The nodes, and the hostnames managed for entries. */
  datatype Fleet = Fleet(nodes: map<Id, Node>, hosts: map<Id, string>)

  predicate Forwards(r: Role) { r == RelayRole || r == BothRole }

  predicate Exits(r: Role) { r == ExitRole || r == BothRole }

  predicate CanEnter(n: Node) { !n.pending && Forwards(n.role) && !n.ip.v6 && !n.ip.IsUnspecified() }

  predicate HasHost(f: Fleet, entry: Id) { entry in f.hosts && f.hosts[entry] != "" }

  /** Why a chain between these nodes is refused, in the order of the checks. */
  function NodeRefusal(f: Fleet, q: Route): Option<NodeError> {
    if q.entry !in f.nodes then Some(EntryNotFound)
    else if !CanEnter(f.nodes[q.entry]) then Some(EntryCannotForward)
    else if q.exit !in f.nodes then Some(ExitNotFound)
    else if f.nodes[q.exit].listening == None then Some(ExitWithoutPort)
    else if !Exits(f.nodes[q.exit].role) then Some(ExitTerminatesNothing)
    else if f.nodes[q.exit].pending then Some(ExitUnregistered)
    else if !HasHost(f, q.entry) then Some(NoManagedHost)
    else if q.host != "" && q.host != f.hosts[q.entry] then Some(HostMismatch)
    else if !ValidPort(ExitPortOf(f, q)) then Some(BadExitPort)
    else None
  }

  function ExitPortOf(f: Fleet, q: Route): int
    requires q.exit in f.nodes && f.nodes[q.exit].listening.Some?
  {
    if q.exitPort != 0 then q.exitPort else f.nodes[q.exit].listening.value
  }

  /** A row of node_chains, for a relay chain. */
  datatype ChainRow = ChainRow(entry: Id, host: string, claim: PortClaim, exit: Id, exitPort: int)

  function RowOf(f: Fleet, q: Route): ChainRow
    requires NodeRefusal(f, q) == None
  {
    ChainRow(q.entry, f.hosts[q.entry], ClaimOf(q), q.exit, ExitPortOf(f, q))
  }

  /** A chain that is created leads from a registered forwarding node with a name to another
      registered node that terminates tunnels there. */
  lemma RowIsSound(f: Fleet, q: Route)
    requires NodeRefusal(f, q) == None
    ensures var row := RowOf(f, q);
            && row.entry in f.nodes && row.exit in f.nodes && !f.nodes[row.entry].pending && !f.nodes[row.exit].pending
            && f.nodes[row.entry].role in {RelayRole, BothRole} && f.nodes[row.exit].role in {ExitRole, BothRole}
            && row.host != "" && row.host == f.hosts[row.entry] && ValidPort(row.exitPort)
            && (if q.exitPort != 0 then row.exitPort == q.exitPort
                else Some(row.exitPort) == f.nodes[row.exit].listening)
            && row.claim == PortClaim(q.entryPort, q.transport) && row.entry == q.entry && row.exit == q.exit
  {
  }

  /** The nodes are accepted if and only if the entry is registered, forwards, has an IPv4 address
      and a managed hostname, which the request does not contradict, and the exit is registered,
      terminates tunnels and listens on a valid port, or the request names one. */
  lemma NodesExactly(f: Fleet, q: Route)
    ensures NodeRefusal(f, q) == None <==>
            && q.entry in f.nodes && q.exit in f.nodes && q.entry in f.hosts
            && (var entry, exit, host := f.nodes[q.entry], f.nodes[q.exit], f.hosts[q.entry];
                && !entry.pending && (entry.role.RelayRole? || entry.role.BothRole?) && !entry.ip.v6
                   && entry.ip.bits != 0
                && !exit.pending && (exit.role.ExitRole? || exit.role.BothRole?) && exit.listening.Some?
                && host != "" && (q.host == "" || q.host == host)
                && 1 <= (if q.exitPort != 0 then q.exitPort else exit.listening.value) <= 65535)
  {
  }

  function ClaimsIn(rows: seq<ChainRow>): (r: seq<PortClaim>)
    ensures |r| == |rows| && forall n | 0 <= n < |r| :: r[n] == rows[n].claim
  {
    seq(|rows|, n requires 0 <= n < |rows| => rows[n].claim)
  }

  function RowsFor(f: Fleet, routes: seq<Route>): (r: seq<ChainRow>)
    requires forall i | 0 <= i < |routes| :: NodeRefusal(f, routes[i]) == None
    ensures |r| == |routes| && forall n | 0 <= n < |r| :: r[n] == RowOf(f, routes[n])
  {
    seq(|routes|, n requires 0 <= n < |routes| => RowOf(f, routes[n]))
  }

  /** Route i is the first whose nodes are refused. */
  ghost predicate RefusedAt(f: Fleet, routes: seq<Route>, i: nat, e: NodeError)
    requires i < |routes|
  {
    NodeRefusal(f, routes[i]) == Some(e) && forall j | 0 <= j < i :: NodeRefusal(f, routes[j]) == None
  }

  /** What stopped a batch: the first request whose port is refused, the first automatic
      route without a port, or the first route whose nodes are refused, in this order. */
  ghost predicate Explains(f: Fleet, asked: seq<Route>, taken: seq<PortClaim>, routes: seq<Route>, e: BatchError)
    requires |asked| == |routes|
  {
    match e
    case NodeRefused(x) =>
      ExplicitOk(asked, |asked|, taken) && Reserved(asked, taken, routes, |asked|)
          && exists i: nat | i < |routes| :: RefusedAt(f, routes, i, x)
    case NoPortsLeft =>
      ExplicitOk(asked, |asked|, taken) && |taken| + |asked| > 1000
          && exists i: nat | i < |asked| :: FullAt(asked, taken, routes, i)
    case _ => exists i: nat | i < |asked| :: FailsAt(asked, taken, i, e)
  }

  // ----- The transaction -----

  /** The relay chains of the table node_chains, beside the nodes they lead through. */
  class NodeChains {
    const fleet: Fleet
    var rows: seq<ChainRow>

    constructor (fleet: Fleet)
      ensures this.fleet == fleet && rows == []
    {
      this.fleet, rows := fleet, [];
    }

    function Claims(): seq<PortClaim>
      reads this
    {
      ClaimsIn(rows)
    }

    ghost predicate Valid()
      reads this
    {
      AllKnown(Claims()) && IndexesHold(Claims())
    }

    /** Rows come in any order. */
    method ClaimedEntryPorts() returns (claims: seq<PortClaim>)
      ensures multiset(claims) == multiset(Claims())
    {
      claims := *;
      if multiset(claims) != multiset(Claims()) {
        claims := Claims();
      }
    }

    /** The unique indexes refuse any other row. */
    method Insert(row: ChainRow)
      requires Known(row.claim.transport) && Valid() && IndexesHold(Claims() + [row.claim])
      modifies this
      ensures Valid() && rows == old(rows) + [row] && Claims() == old(Claims()) + [row.claim]
    {
      rows := rows + [row];
      assert Claims() == old(Claims()) + [row.claim];
    }

    /** The checks on both nodes. */
    method CheckNodes(q: Route) returns (e: Option<NodeError>)
      ensures e == NodeRefusal(fleet, q)
    {
      if q.entry !in fleet.nodes {
        return Some(EntryNotFound);
      }
      var entry := fleet.nodes[q.entry];
      if entry.pending || !Forwards(entry.role) || entry.ip.v6 || entry.ip.IsUnspecified() {
        return Some(EntryCannotForward);
      }
      if q.exit !in fleet.nodes {
        return Some(ExitNotFound);
      }
      var exit := fleet.nodes[q.exit];
      if exit.listening == None {
        return Some(ExitWithoutPort);
      }
      if !Exits(exit.role) {
        return Some(ExitTerminatesNothing);
      }
      if exit.pending {
        return Some(ExitUnregistered);
      }
      if q.entry !in fleet.hosts || fleet.hosts[q.entry] == "" {
        return Some(NoManagedHost);
      }
      if q.host != "" && q.host != fleet.hosts[q.entry] {
        return Some(HostMismatch);
      }
      var exitPort := exit.listening.value;
      if q.exitPort != 0 {
        exitPort := q.exitPort;
      }
      return if ValidPort(exitPort) then None else Some(BadExitPort);
    }

    /** Creates one relay chain; its row never violates an index. */
    method CreateNodeChain(q: Route) returns (r: Result<ChainRow, BatchError>)
      requires Valid() && Known(q.transport)
      modifies this
      ensures Valid()
      ensures NodeRefusal(fleet, q).Some? ==> r == Err(NodeRefused(NodeRefusal(fleet, q).value))
      ensures NodeRefusal(fleet, q) == None && q.entryPort != 0 ==>
                (r.Ok? <==> Grantable(q.entryPort, q.transport, old(Claims())))
      ensures NodeRefusal(fleet, q) == None && q.entryPort == 0 ==>
                (r.Ok? <==> FirstFree(RELAY_RANGE.start, q.transport, old(Claims())).Some?)
      ensures r.Ok? ==>
                && rows == old(rows) + [r.value] && r.value.claim.transport == q.transport
                && (if q.entryPort != 0 then r.value.claim.port == q.entryPort
                    else FirstFree(RELAY_RANGE.start, q.transport, old(Claims())) == Some(r.value.claim.port))
                && r.value == RowOf(fleet, q).(claim := r.value.claim)
      ensures r.Err? ==> rows == old(rows)
      ensures r == Err(PortTaken) ==> Blocked(Claims(), q.entryPort, q.transport)
    {
      var refused := CheckNodes(q);
      if refused.Some? {
        return Err(NodeRefused(refused.value));
      }
      var claims := ClaimedEntryPorts();
      SameClaims(claims, Claims());
      var port := AllocateEntryPort(q.entryPort, q.transport, claims);
      SameFree(claims, Claims(), RELAY_RANGE.start, q.transport);
      if port.Err? {
        if Blocked(claims, q.entryPort, q.transport) {
          return Err(PortTaken);
        }
        return Err(if q.entryPort != 0 then InvalidPortRequested else NoPortsLeft);
      }
      AddedIsIndexed(Claims(), port.value, q.transport);
      var row := RowOf(fleet, q.(entryPort := port.value));
      Insert(row);
      return Ok(row);
    }

    /** Creates all routes or none; a preview creates none but answers the same. */
    method Batch(requests: array<Route>, preview: bool) returns (e: Option<BatchError>)
      requires Valid() && KnownRoutes(requests[..])
      modifies this, requests
      ensures Valid()
      ensures e == None ==>
                && ExplicitOk(old(requests[..]), requests.Length, old(Claims()))
                && Reserved(old(requests[..]), old(Claims()), requests[..], requests.Length)
                && Placed(requests[..], old(Claims()))
      ensures e == None ==> forall i | 0 <= i < requests.Length :: NodeRefusal(fleet, requests[i]) == None
      ensures rows == if e == None && !preview then old(rows) + RowsFor(fleet, requests[..]) else old(rows)
      ensures e.Some? ==> Explains(fleet, old(requests[..]), old(Claims()), requests[..], e.value)
    {
      e := Reserve(requests);
      if e.Some? {
        return;
      }
      ReservedIsPlaced(old(requests[..]), Claims(), requests[..]);
      e := CreateAll(requests, preview);
    }

    /** The ports of all routes, before any chain is created. */
    method Reserve(requests: array<Route>) returns (e: Option<BatchError>)
      requires Valid() && KnownRoutes(requests[..])
      modifies requests
      ensures e == None ==>
                && ExplicitOk(old(requests[..]), requests.Length, Claims())
                && Reserved(old(requests[..]), Claims(), requests[..], requests.Length)
      ensures e.Some? && e.value != NoPortsLeft <==> !ExplicitOk(old(requests[..]), requests.Length, Claims())
      ensures e.Some? && e.value != NoPortsLeft ==>
                exists i: nat | i < requests.Length :: FailsAt(old(requests[..]), Claims(), i, e.value)
      ensures e == Some(NoPortsLeft) ==>
                && |rows| + requests.Length > 1000
                && exists i: nat | i < requests.Length :: FullAt(old(requests[..]), Claims(), requests[..], i)
    {
      ghost var asked := requests[..];
      var claims := ClaimedEntryPorts();
      SameClaims(claims, Claims());
      var reserved;
      e, reserved := ReserveExplicit(requests, claims);
      SameExplicit(asked, requests.Length, claims, Claims());
      if e.Some? {
        ghost var i: nat :| i < |asked| && FailsAt(asked, claims, i, e.value);
        SameFailure(asked, claims, Claims(), i, e.value);
        return;
      }
      e := ReserveAutomatic(requests, claims, reserved);
      if e.Some? {
        ghost var i: nat :| i < |asked| && FullAt(asked, claims, requests[..], i);
        SameReserved(asked, requests[..], i, claims, Claims());
        SameAvoided(asked, requests[..], i, claims, Claims());
        assert FullAt(asked, Claims(), requests[..], i);
        return;
      }
      SameReserved(asked, requests[..], requests.Length, claims, Claims());
    }

    method CreateAll(requests: array<Route>, preview: bool) returns (e: Option<BatchError>)
      requires Valid() && KnownRoutes(requests[..]) && Placed(requests[..], Claims())
      modifies this
      ensures Valid()
      ensures e == None ==> forall i | 0 <= i < requests.Length :: NodeRefusal(fleet, requests[i]) == None
      ensures rows == if e == None && !preview then old(rows) + RowsFor(fleet, requests[..]) else old(rows)
      ensures e.Some? ==>
                e.value.NodeRefused?
                && exists i: nat | i < requests.Length :: RefusedAt(fleet, requests[..], i, e.value.reason)
    {
      var before := rows;
      ghost var routes, taken := requests[..], Claims();
      for i := 0 to requests.Length
        invariant Valid() && (forall j | 0 <= j < i :: NodeRefusal(fleet, routes[j]) == None)
        invariant rows == before + RowsFor(fleet, routes[..i]) && Claims() == taken + ClaimsOf(routes)[..i]
      {
        NextIsFree(routes, taken, i, Claims());
        var r := CreateNodeChain(requests[i]);
        if r.Err? {
          assert RefusedAt(fleet, routes, i, r.error.reason);
          rows := before;
          assert requests[..] == routes;
          assert Claims() == taken;
          return Some(r.error);
        }
        assert r == Ok(RowOf(fleet, routes[i]));
        assert RowsFor(fleet, routes[..i + 1]) == RowsFor(fleet, routes[..i]) + [RowOf(fleet, routes[i])];
        assert Claims() == taken + ClaimsOf(routes)[..i + 1];
      }
      assert routes[..requests.Length] == routes;
      if preview {
        rows := before;
      }
      return None;
    }
  }

  lemma SameClaims(rows: seq<PortClaim>, claims: seq<PortClaim>)
    requires multiset(rows) == multiset(claims)
    ensures |rows| == |claims|
    ensures forall c :: c in rows <==> c in claims
    ensures forall port, want :: Blocked(rows, port, want) <==> Blocked(claims, port, want)
  {
    assert |multiset(rows)| == |multiset(claims)|;
    forall c ensures c in rows <==> c in claims {
      assert c in multiset(rows) <==> c in multiset(claims);
    }
  }

  lemma {:induction false} SameFree(rows: seq<PortClaim>, claims: seq<PortClaim>, port: int, want: Transport)
    requires forall p :: Blocked(rows, p, want) <==> Blocked(claims, p, want)
    ensures FirstFree(port, want, rows) == FirstFree(port, want, claims)
    decreases RELAY_RANGE.end + 1 - port
  {
    if port <= RELAY_RANGE.end {
      SameFree(rows, claims, port + 1, want);
    }
  }

  lemma SameBlocked(rows: seq<PortClaim>, claims: seq<PortClaim>, more: seq<PortClaim>, port: int, want: Transport)
    requires forall c :: c in rows <==> c in claims
    ensures Blocked(rows + more, port, want) <==> Blocked(claims + more, port, want)
  {
    BlockedMore(rows + more, claims + more, port, want);
    BlockedMore(claims + more, rows + more, port, want);
  }

  lemma SameExplicit(asked: seq<Route>, n: nat, rows: seq<PortClaim>, claims: seq<PortClaim>)
    requires n <= |asked| && forall c :: c in rows <==> c in claims
    ensures ExplicitOk(asked, n, rows) <==> ExplicitOk(asked, n, claims)
  {
    forall i | 0 <= i < n
      ensures Grantable(asked[i].entryPort, asked[i].transport, rows + Chosen(asked, asked, i, true)) <==>
              Grantable(asked[i].entryPort, asked[i].transport, claims + Chosen(asked, asked, i, true))
    {
      SameBlocked(rows, claims, Chosen(asked, asked, i, true), asked[i].entryPort, asked[i].transport);
    }
  }

  lemma SameFailure(asked: seq<Route>, rows: seq<PortClaim>, claims: seq<PortClaim>, i: nat, e: BatchError)
    requires i < |asked| && (forall c :: c in rows <==> c in claims) && FailsAt(asked, rows, i, e)
    ensures FailsAt(asked, claims, i, e)
  {
    SameExplicit(asked, i, rows, claims);
    SameBlocked(rows, claims, Chosen(asked, asked, i, true), asked[i].entryPort, asked[i].transport);
  }

  lemma SameAvoided(asked: seq<Route>, routes: seq<Route>, i: nat, rows: seq<PortClaim>, claims: seq<PortClaim>)
    requires i < |asked| == |routes| && forall c :: c in rows <==> c in claims
    ensures FirstFree(RELAY_RANGE.start, asked[i].transport, Avoids(asked, routes, i, rows)) ==
            FirstFree(RELAY_RANGE.start, asked[i].transport, Avoids(asked, routes, i, claims))
  {
    var avoided, avoided' := Avoids(asked, routes, i, rows), Avoids(asked, routes, i, claims);
    forall p ensures Blocked(avoided, p, asked[i].transport) <==> Blocked(avoided', p, asked[i].transport) {
      BlockedMore(avoided, avoided', p, asked[i].transport);
      BlockedMore(avoided', avoided, p, asked[i].transport);
    }
    SameFree(avoided, avoided', RELAY_RANGE.start, asked[i].transport);
  }

  lemma SameReserved(asked: seq<Route>, routes: seq<Route>, n: nat, rows: seq<PortClaim>, claims: seq<PortClaim>)
    requires n <= |asked| == |routes| && forall c :: c in rows <==> c in claims
    ensures Reserved(asked, rows, routes, n) <==> Reserved(asked, claims, routes, n)
  {
    forall i | 0 <= i < n ensures Served(asked, rows, routes, i) <==> Served(asked, claims, routes, i) {
      SameAvoided(asked, routes, i, rows, claims);
    }
  }

  lemma AddedIsIndexed(claims: seq<PortClaim>, port: int, want: Transport)
    requires AllKnown(claims) && IndexesHold(claims) && Known(want) && !Blocked(claims, port, want)
    ensures IndexesHold(claims + [PortClaim(port, want)])
  {
    ConflictFreeIffIndexes(claims);
    ConflictFreeIffIndexes(claims + [PortClaim(port, want)]);
    Extends(claims, port, want);
  }
}
