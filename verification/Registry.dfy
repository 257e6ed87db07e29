/** node_registry, routing_table and relay_hubs (hub/internal/registry/registry.go). */
module Registry {
  import opened Mesh
  import opened Routing

  /** node_registry.status is text: gossip may write any string into it. */
  datatype NodeStatus = Online | Stale | Other(text: string)

  datatype NodeRow = NodeRow(firstSeen: int, lastSeen: int, status: NodeStatus,
                             lat: Option<real>, lon: Option<real>)

  datatype RelayRow = RelayRow(ip: string, port: int, source: string, lastVerified: int)

  type NodeTable = map<NodeId, NodeRow>
  type RouteTable = map<NodeId, Route>
  type RelayTable = map<NodeId, RelayRow>

  // ----- What each operation does to its table -----

  predicate IsOnline(nodes: NodeTable, id: NodeId) {
    id in nodes && nodes[id].status == Online
  }

  function Seen(nodes: NodeTable, id: NodeId, at: int): NodeTable {
    if id in nodes
    then nodes[id := nodes[id].(lastSeen := at, status := Online)]
    else nodes[id := NodeRow(at, at, Online, None, None)]
  }

  function StaleBefore(nodes: NodeTable, cutoff: int): set<NodeId> {
    set id | id in nodes && nodes[id].status == Online && nodes[id].lastSeen < cutoff
  }

  function MarkedStale(nodes: NodeTable, cutoff: int): NodeTable {
    map id | id in nodes ::
      if id in StaleBefore(nodes, cutoff) then nodes[id].(status := Stale) else nodes[id]
  }

  lemma NothingStale(nodes: NodeTable, cutoff: int)
    requires StaleBefore(nodes, cutoff) == {}
    ensures MarkedStale(nodes, cutoff) == nodes
  {
    forall id | id in nodes ensures MarkedStale(nodes, cutoff)[id] == nodes[id] {
      assert id !in StaleBefore(nodes, cutoff);
    }
  }

  function Located(nodes: NodeTable, id: NodeId, lat: real, lon: real, at: int): NodeTable {
    if id in nodes
    then nodes[id := nodes[id].(lat := Some(lat), lon := Some(lon),
                                lastSeen := if nodes[id].lastSeen < at then at else nodes[id].lastSeen)]
    else nodes
  }

  function WithoutNextHop(routes: RouteTable, hop: NodeId): RouteTable {
    map d | d in routes && routes[d].nextHop != hop :: routes[d]
  }

  function Coalesce<T>(a: Option<T>, b: Option<T>): Option<T> {
    if a.Some? then a else b
  }

  function MergedNode(nodes: NodeTable, id: NodeId, rec: NodeRow): NodeTable {
    if id !in nodes then nodes[id := rec]
    else if rec.lastSeen <= nodes[id].lastSeen then nodes
    else nodes[id := NodeRow(nodes[id].firstSeen, rec.lastSeen, rec.status,
                             Coalesce(rec.lat, nodes[id].lat), Coalesce(rec.lon, nodes[id].lon))]
  }

  function MergedRelay(relays: RelayTable, id: NodeId, ip: string, port: int, verifiedAt: int): RelayTable {
    if id in relays && verifiedAt <= relays[id].lastVerified then relays
    else relays[id := RelayRow(ip, port, "gossip", verifiedAt)]
  }

  /** The registry object: each method is one SQL transaction on the tables. */
  class Registry {
    var nodes: NodeTable
    var routes: RouteTable
    var relays: RelayTable

    constructor ()
      ensures nodes == map[] && routes == map[] && relays == map[]
    {
      nodes, routes, relays := map[], map[], map[];
    }

    method UpsertSeen(id: NodeId, seenAt: int) returns (statusChanged: bool)
      modifies this`nodes
      ensures nodes == Seen(old(nodes), id, seenAt)
      ensures id in nodes && nodes[id].lastSeen == seenAt && nodes[id].status == Online
      ensures id in old(nodes) ==> nodes[id] == old(nodes)[id].(lastSeen := seenAt, status := Online)
      ensures id !in old(nodes) ==> nodes[id].firstSeen == seenAt && nodes[id].lat.None? && nodes[id].lon.None?
      ensures nodes - {id} == old(nodes) - {id}
      ensures statusChanged <==> !IsOnline(old(nodes), id)
    {
      if id !in nodes {
        nodes := nodes[id := NodeRow(seenAt, seenAt, Online, None, None)];
        statusChanged := true;
      } else {
        var before := nodes[id].status;
        nodes := nodes[id := nodes[id].(lastSeen := seenAt, status := Online)];
        statusChanged := before != Online;
      }
    }

    /** Selects the stale rows one by one, then updates them all; the report lists each
        changed node once, and is empty exactly when the table is left alone. */
    method MarkStaleBefore(cutoff: int) returns (stale: seq<NodeId>)
      modifies this`nodes
      ensures nodes == MarkedStale(old(nodes), cutoff)
      ensures forall id :: id in stale <==> id in StaleBefore(old(nodes), cutoff)
      ensures Distinct(stale)
      ensures nodes.Keys == old(nodes).Keys
      ensures forall id :: id in stale <==> IsOnline(old(nodes), id) && old(nodes)[id].lastSeen < cutoff
      ensures forall id :: id in nodes ==>
                nodes[id] == if id in stale then old(nodes)[id].(status := Stale) else old(nodes)[id]
    {
      stale := [];
      var rows := StaleBefore(nodes, cutoff);
      ghost var all := rows;
      while rows != {}
        invariant nodes == old(nodes) && rows <= all
        invariant forall id :: id in stale <==> id in all && id !in rows
        invariant Distinct(stale)
        decreases rows
      {
        var id :| id in rows;
        DistinctSnoc(stale, id);
        stale := stale + [id];
        rows := rows - {id};
      }
      if |stale| > 0 {
        nodes := MarkedStale(nodes, cutoff);
      } else {
        assert forall id :: id in all ==> id in stale;
        assert all == {};
        NothingStale(nodes, cutoff);
      }
    }

    method UpdateLocation(id: NodeId, lat: real, lon: real, at: int)
      modifies this`nodes
      ensures nodes == Located(old(nodes), id, lat, lon, at)
      ensures nodes.Keys == old(nodes).Keys && nodes - {id} == old(nodes) - {id}
      ensures id in nodes ==>
                && nodes[id] == old(nodes)[id].(lat := Some(lat), lon := Some(lon), lastSeen := nodes[id].lastSeen)
                && nodes[id].lastSeen >= at && nodes[id].lastSeen >= old(nodes)[id].lastSeen
                && (nodes[id].lastSeen == at || nodes[id].lastSeen == old(nodes)[id].lastSeen)
    {
      if id in nodes {
        var row := nodes[id];
        var seen := if row.lastSeen < at then at else row.lastSeen;
        nodes := nodes[id := row.(lat := Some(lat), lon := Some(lon), lastSeen := seen)];
      }
    }

    method UpsertRoute(route: Route)
      modifies this`routes
      ensures routes == old(routes)[route.dest := route]
    {
      routes := routes[route.dest := route];
    }

    method GetRoute(dest: NodeId) returns (route: Option<Route>)
      ensures route == if dest in routes then Some(routes[dest]) else None
    {
      if dest in routes {
        route := Some(routes[dest]);
      } else {
        route := None;
      }
    }

    method DeleteRoutesViaNextHop(hop: NodeId) returns (removed: nat)
      modifies this`routes
      ensures routes == WithoutNextHop(old(routes), hop)
      ensures forall d :: d in routes <==> d in old(routes) && old(routes)[d].nextHop != hop
      ensures forall d :: d in routes ==> routes[d] == old(routes)[d]
      ensures removed == |old(routes)| - |routes|
    {
      var before := routes;
      routes := WithoutNextHop(routes, hop);
      assert routes.Keys <= before.Keys;
      CardinalityMonotone(routes.Keys, before.Keys);
      removed := |before.Keys| - |routes.Keys|;
    }

    method UpsertGossipRelay(id: NodeId, ip: string, port: int, verifiedAt: int) returns (changed: bool)
      modifies this`relays
      ensures relays == MergedRelay(old(relays), id, ip, port, verifiedAt)
      ensures changed <==> id !in old(relays) || verifiedAt > old(relays)[id].lastVerified
      ensures id in relays && relays - {id} == old(relays) - {id}
      ensures relays[id] == if changed then RelayRow(ip, port, "gossip", verifiedAt) else old(relays)[id]
    {
      if id !in relays {
        relays := relays[id := RelayRow(ip, port, "gossip", verifiedAt)];
        return true;
      }
      if verifiedAt <= relays[id].lastVerified {
        return false;
      }
      relays := relays[id := relays[id].(ip := ip, port := port, source := "gossip", lastVerified := verifiedAt)];
      return true;
    }

    method MergeGossipNode(id: NodeId, rec: NodeRow) returns (changed: bool)
      modifies this`nodes
      ensures nodes == MergedNode(old(nodes), id, rec)
      ensures id in nodes && nodes - {id} == old(nodes) - {id}
      ensures id !in old(nodes) ==> nodes[id] == rec
      ensures id in old(nodes) && !changed ==> nodes[id] == old(nodes)[id]
      ensures id in old(nodes) && changed ==>
                && nodes[id].firstSeen == old(nodes)[id].firstSeen
                && nodes[id].lastSeen == rec.lastSeen && nodes[id].status == rec.status
                && nodes[id].lat == (if rec.lat.None? then old(nodes)[id].lat else rec.lat)
                && nodes[id].lon == (if rec.lon.None? then old(nodes)[id].lon else rec.lon)
      ensures changed <==> id !in old(nodes) || rec.lastSeen > old(nodes)[id].lastSeen
    {
      if id !in nodes {
        nodes := nodes[id := rec];
        return true;
      }
      var row := nodes[id];
      if rec.lastSeen <= row.lastSeen {
        return false;
      }
      nodes := nodes[id := row.(lastSeen := rec.lastSeen, status := rec.status,
                                lat := Coalesce(rec.lat, row.lat), lon := Coalesce(rec.lon, row.lon))];
      return true;
    }
  }

  lemma CardinalityMonotone<T>(a: set<T>, b: set<T>)
    requires a <= b
    ensures |a| <= |b|
  {
    assert b == a + (b - a);
  }
}
