/** Entry ports of relay chains: which claims conflict, which port a new chain gets, and
    that the fleet's claims stay conflict-free (pkg/nodeprov/relay.go,
    api-server/internal/database/schema.go). */
module EntryPorts {
  import opened Base
  import opened Sets
  import opened Ports

  datatype Transport = Tcp | Udp | TcpUdp | UnknownTransport(name: string)

  datatype PortClaim = PortClaim(port: int, transport: Transport)

  predicate Known(t: Transport) { !t.UnknownTransport? }

  predicate TransportCovers(t: Transport, other: Transport) {
    if t == TcpUdp then Known(other) else t == other
  }

  predicate Overlap(t: Transport, u: Transport) { TransportCovers(t, u) || TransportCovers(u, t) }

  predicate ConflictsWith(c: PortClaim, port: int, want: Transport) { c.port == port && Overlap(c.transport, want) }

  predicate Blocked(taken: seq<PortClaim>, port: int, want: Transport) {
    exists c | c in taken :: ConflictsWith(c, port, want)
  }

  // ----- Conflict-freedom and the unique indexes -----

  ghost predicate ConflictFree(claims: seq<PortClaim>) {
    forall i, j | 0 <= i < j < |claims| :: !ConflictsWith(claims[i], claims[j].port, claims[j].transport)
  }

  /** A unique index on entry_port over the rows with one of these transports. */
  ghost predicate UniqueOver(claims: seq<PortClaim>, transports: set<Transport>) {
    forall i, j | 0 <= i < j < |claims| && claims[i].transport in transports && claims[j].transport in transports ::
      claims[i].port != claims[j].port
  }

  ghost predicate IndexesHold(claims: seq<PortClaim>) {
    UniqueOver(claims, {Tcp, TcpUdp}) && UniqueOver(claims, {Udp, TcpUdp})
  }

  ghost predicate AllKnown(claims: seq<PortClaim>) { forall c | c in claims :: Known(c.transport) }

  /** MAIN RESULT. No two claims conflict exactly when both partial unique indexes hold. */
  lemma ConflictFreeIffIndexes(claims: seq<PortClaim>)
    requires AllKnown(claims)
    ensures ConflictFree(claims) <==> IndexesHold(claims)
  {
    forall i, j | 0 <= i < j < |claims|
      ensures Overlap(claims[i].transport, claims[j].transport) <==>
              ({claims[i].transport, claims[j].transport} <= {Tcp, TcpUdp}
               || {claims[i].transport, claims[j].transport} <= {Udp, TcpUdp})
    {
      assert claims[i] in claims && claims[j] in claims;
    }
    if IndexesHold(claims) {
      forall i, j | 0 <= i < j < |claims| && Overlap(claims[i].transport, claims[j].transport)
        ensures claims[i].port != claims[j].port
      {
        assert claims[i].transport in {claims[i].transport, claims[j].transport};
        assert claims[j].transport in {claims[i].transport, claims[j].transport};
      }
    }
  }

  lemma Extends(claims: seq<PortClaim>, port: int, want: Transport)
    ensures ConflictFree(claims + [PortClaim(port, want)]) <==> ConflictFree(claims) && !Blocked(claims, port, want)
  {
    var more := claims + [PortClaim(port, want)];
    if ConflictFree(more) {
      forall i, j | 0 <= i < j < |claims| ensures !ConflictsWith(claims[i], claims[j].port, claims[j].transport) {
        assert more[i] == claims[i] && more[j] == claims[j];
      }
      forall c | c in claims ensures !ConflictsWith(c, port, want) {
        var i :| 0 <= i < |claims| && claims[i] == c;
        assert more[i] == c && more[|claims|] == PortClaim(port, want);
      }
    }
  }

  // ----- AllocateEntryPort -----

  datatype AllocError = BadTransport | OutOfRange | InTierRange | Claimed(transport: Transport) | NoFreePort

  /** The least free port from `port` to the end of the relay range. */
  function FirstFree(port: int, want: Transport, taken: seq<PortClaim>): (r: Option<int>)
    ensures r.Some? ==> port <= r.value <= RELAY_RANGE.end && !Blocked(taken, r.value, want)
    ensures forall p | port <= p < (if r.Some? then r.value else RELAY_RANGE.end + 1) :: Blocked(taken, p, want)
    decreases RELAY_RANGE.end + 1 - port
  {
    if port > RELAY_RANGE.end then None
    else if !Blocked(taken, port, want) then Some(port)
    else FirstFree(port + 1, want, taken)
  }

  /** Whether `port` may be granted on request. */
  predicate Grantable(port: int, want: Transport, taken: seq<PortClaim>) {
    ValidPort(port) && !InSpec(port, TIER_RANGE) && !Blocked(taken, port, want)
  }

  /** What AllocateEntryPort promises: a requested port exactly if it may be granted, or
      else the first free port of the relay range. */
  ghost predicate Allocates(requested: int, want: Transport, taken: seq<PortClaim>, r: Result<int, AllocError>) {
    if !Known(want) then r == Err(BadTransport)
    else if requested != 0 then
      match r
      case Ok(port) => port == requested && Grantable(requested, want, taken)
      case Err(OutOfRange) => !ValidPort(requested)
      case Err(InTierRange) => ValidPort(requested) && InSpec(requested, TIER_RANGE)
      case Err(Claimed(t)) =>
        ValidPort(requested) && !InSpec(requested, TIER_RANGE) && PortClaim(requested, t) in taken && Overlap(t, want)
      case _ => false
    else
      match FirstFree(RELAY_RANGE.start, want, taken)
      case Some(port) => r == Ok(port)
      case None => r == Err(NoFreePort)
  }

  method AllocateEntryPort(requested: int, want: Transport, taken: seq<PortClaim>) returns (r: Result<int, AllocError>)
    ensures Allocates(requested, want, taken, r)
  {
    if !Known(want) {
      return Err(BadTransport);
    }
    if requested != 0 {
      r := CheckRequested(requested, want, taken);
      return;
    }
    r := FindFree(want, taken);
  }

  method CheckRequested(requested: int, want: Transport, taken: seq<PortClaim>) returns (r: Result<int, AllocError>)
    requires Known(want) && requested != 0
    ensures Allocates(requested, want, taken, r)
  {
    if !ValidPort(requested) {
      return Err(OutOfRange);
    }
    if InSpec(requested, TIER_RANGE) {
      return Err(InTierRange);
    }
    for i := 0 to |taken|
      invariant forall j | 0 <= j < i :: !ConflictsWith(taken[j], requested, want)
    {
      if ConflictsWith(taken[i], requested, want) {
        return Err(Claimed(taken[i].transport));
      }
    }
    return Ok(requested);
  }

  function TransportsAt(claimed: map<int, seq<Transport>>, port: int): seq<Transport> {
    if port in claimed then claimed[port] else []
  }

  /** The map lists the transports claimed at every port. */
  ghost predicate Lists(claimed: map<int, seq<Transport>>, taken: seq<PortClaim>) {
    forall port, t :: t in TransportsAt(claimed, port) <==> PortClaim(port, t) in taken
  }

  method ListClaims(taken: seq<PortClaim>) returns (claimed: map<int, seq<Transport>>)
    ensures Lists(claimed, taken)
  {
    claimed := map[];
    for i := 0 to |taken|
      invariant Lists(claimed, taken[..i])
    {
      var c := taken[i];
      assert taken[..i + 1] == taken[..i] + [c];
      claimed := claimed[c.port := TransportsAt(claimed, c.port) + [c.transport]];
    }
    assert taken[..|taken|] == taken;
  }

  method FindFree(want: Transport, taken: seq<PortClaim>) returns (r: Result<int, AllocError>)
    requires Known(want)
    ensures Allocates(0, want, taken, r)
  {
    var claimed := ListClaims(taken);
    for port := RELAY_RANGE.start to RELAY_RANGE.end + 1
      invariant FirstFree(RELAY_RANGE.start, want, taken) == FirstFree(port, want, taken)
    {
      var free := IsFree(claimed, port, want, taken);
      if free {
        return Ok(port);
      }
    }
    return Err(NoFreePort);
  }

  method IsFree(claimed: map<int, seq<Transport>>, port: int, want: Transport, ghost taken: seq<PortClaim>)
    returns (free: bool)
    requires Lists(claimed, taken)
    ensures free <==> !Blocked(taken, port, want)
  {
    free := true;
    var transports := TransportsAt(claimed, port);
    for i := 0 to |transports|
      invariant free && forall j | 0 <= j < i :: !Overlap(transports[j], want)
    {
      if Overlap(transports[i], want) {
        assert transports[i] in transports && ConflictsWith(PortClaim(port, transports[i]), port, want);
        free := false;
        break;
      }
    }
    forall c | c in taken && c.port == port ensures c.transport in transports {
      assert c == PortClaim(port, c.transport);
    }
  }

  // ----- How allocation can fail -----

  function PortsOf(taken: seq<PortClaim>): set<int> { set c | c in taken :: c.port }

  lemma {:induction false} FewPorts(taken: seq<PortClaim>)
    ensures |PortsOf(taken)| <= |taken|
  {
    if taken != [] {
      FewPorts(taken[1..]);
      assert taken == [taken[0]] + taken[1..];
      assert PortsOf(taken) == PortsOf(taken[1..]) + {taken[0].port};
    }
  }

  function Interval(lo: int, hi: int): (r: set<int>)
    requires lo <= hi
    ensures |r| == hi - lo && forall p :: p in r <==> lo <= p < hi
    decreases hi - lo
  {
    if lo == hi then {} else Interval(lo, hi - 1) + {hi - 1}
  }

  /** MAIN RESULT. Automatic allocation gives the least free port of the relay range, never
      a port of the speed-tier range, and fails exactly when every port of the relay range
      is blocked; so never with fewer than 1000 claims. */
  lemma AutomaticAllocation(want: Transport, taken: seq<PortClaim>, r: Result<int, AllocError>)
    requires Known(want) && Allocates(0, want, taken, r)
    ensures r.Err? <==> forall p | InSpec(p, RELAY_RANGE) :: Blocked(taken, p, want)
    ensures r.Ok? ==> InSpec(r.value, RELAY_RANGE) && Grantable(r.value, want, taken)
                      && forall p | RELAY_RANGE.start <= p < r.value :: Blocked(taken, p, want)
    ensures |taken| < 1000 ==> r.Ok?
  {
    if r.Err? {
      forall p | p in Interval(RELAY_RANGE.start, RELAY_RANGE.end + 1) ensures p in PortsOf(taken) {
        assert Blocked(taken, p, want);
      }
      SubsetSize(Interval(RELAY_RANGE.start, RELAY_RANGE.end + 1), PortsOf(taken));
      FewPorts(taken);
    }
  }

  /** A port can be granted if and only if it is a port, no port of the speed tiers, and claimed
      by no chain for TCP or UDP that it is wanted for too. */
  lemma GrantableExactly(port: int, want: Transport, taken: seq<PortClaim>)
    requires Known(want) && AllKnown(taken)
    ensures Grantable(port, want, taken) <==>
            && 1 <= port <= 65535 && !(20001 <= port <= 22000)
            && forall c | c in taken && c.port == port ::
                 (c.transport == Tcp && want == Udp) || (c.transport == Udp && want == Tcp)
  {
  }
}
