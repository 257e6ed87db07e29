/** The Engine object: maps and tables updated in place, method by method, each proved to do what
    OgmHub says (hub/internal/ogmengine/ogmengine.go). */
module OgmEngine {
  import opened Mesh
  import opened Routing
  import opened Registry
  import opened OgmHub
  import opened OgmHubFacts
  import OgmNetwork

  /** One WriteToUDP of an OGM. */
  datatype Datagram = Datagram(msg: Ogm, to: Addr)

  function ToAll(msg: Ogm, targets: seq<Addr>): seq<Datagram> {
    seq(|targets|, i requires 0 <= i < |targets| => Datagram(msg, targets[i]))
  }

  function Datagrams(c: HubConfig, floods: seq<Flood>): seq<Datagram> {
    if floods == [] then []
    else ToAll(floods[0].msg, FloodTargets(c.peers, c.resolvable, floods[0].except)) + Datagrams(c, floods[1..])
  }

  lemma DatagramsOfOne(c: HubConfig, f: Flood)
    ensures Datagrams(c, [f]) == ToAll(f.msg, FloodTargets(c.peers, c.resolvable, f.except))
  {
    assert [f][1..] == [];
    assert Datagrams(c, []) == [];
  }

  lemma DatagramsOfTwo(c: HubConfig, f: Flood, f': Flood)
    ensures Datagrams(c, [f] + [f']) == Datagrams(c, [f]) + Datagrams(c, [f'])
  {
    assert ([f] + [f'])[1..] == [f'];
    DatagramsOfOne(c, f);
  }

  /** What the datagrams of hub h become on the wire. */
  function Arriving(g: OgmNetwork.NetConfig, h: NodeId, sent: seq<Datagram>): seq<OgmNetwork.Packet> {
    if sent == [] then []
    else (if sent[0].to in g.listener then [OgmNetwork.Packet(OgmFrame(sent[0].msg), h, g.listener[sent[0].to])] else [])
         + Arriving(g, h, sent[1..])
  }

  lemma {:induction false} ArrivingConcat(g: OgmNetwork.NetConfig, h: NodeId, a: seq<Datagram>, b: seq<Datagram>)
    ensures Arriving(g, h, a + b) == Arriving(g, h, a) + Arriving(g, h, b)
  {
    if a == [] {
      assert a + b == b;
    } else {
      assert (a + b)[1..] == a[1..] + b;
      ArrivingConcat(g, h, a[1..], b);
    }
  }

  lemma {:induction false} ArrivingToAll(g: OgmNetwork.NetConfig, h: NodeId, msg: Ogm, targets: seq<Addr>)
    ensures Arriving(g, h, ToAll(msg, targets)) == OgmNetwork.Post(g, OgmFrame(msg), h, targets)
  {
    if targets != [] {
      assert ToAll(msg, targets)[1..] == ToAll(msg, targets[1..]);
      ArrivingToAll(g, h, msg, targets[1..]);
    }
  }

  /** The packets a step of the network model posts are exactly the datagrams the engine writes. */
  lemma {:induction false} DatagramsArePosted(g: OgmNetwork.NetConfig, h: NodeId, floods: seq<Flood>)
    requires h in g.hub
    ensures Arriving(g, h, Datagrams(g.hub[h], floods)) == OgmNetwork.PostFloods(g, h, floods)
  {
    if floods != [] {
      var c, f := g.hub[h], floods[0];
      var targets := FloodTargets(c.peers, c.resolvable, f.except);
      ArrivingConcat(g, h, ToAll(f.msg, targets), Datagrams(c, floods[1..]));
      ArrivingToAll(g, h, f.msg, targets);
      DatagramsArePosted(g, h, floods[1..]);
    }
  }

  lemma {:induction false} FloodTargetsSnoc(peers: seq<Addr>, resolvable: set<Addr>, except: Option<Addr>, a: Addr)
    ensures FloodTargets(peers + [a], resolvable, except) ==
            FloodTargets(peers, resolvable, except) +
            (if except == Some(a) || a !in resolvable then [] else [a])
  {
    if peers == [] {
      assert (peers + [a])[1..] == [];
    } else {
      assert (peers + [a])[1..] == peers[1..] + [a];
      FloodTargetsSnoc(peers[1..], resolvable, except, a);
    }
  }

  lemma {:induction false} SurvivingSnoc(alts: seq<Route>, r: Route, stale: NodeId)
    ensures Surviving(alts + [r], stale) == Surviving(alts, stale) + (if r.nextHop == stale then [] else [r])
  {
    if alts == [] {
      assert (alts + [r])[1..] == [];
    } else {
      assert (alts + [r])[0] == alts[0] && (alts + [r])[1..] == alts[1..] + [r];
      SurvivingSnoc(alts[1..], r, stale);
      var first, last := if alts[0].nextHop == stale then [] else [alts[0]], if r.nextHop == stale then [] else [r];
      assert first + (Surviving(alts[1..], stale) + last) == (first + Surviving(alts[1..], stale)) + last;
    }
  }

  /** failoverRoutes with some destinations still to be visited. */
  function Partial(t: Tables, stale: NodeId, pending: set<NodeId>): Tables {
    Tables(WithoutNextHop(t.routes, stale) +
             (map d | d in Promotable(t, stale) - pending :: Surviving(t.alternates[d], stale)[0]),
           map d | d in t.alternates ::
             if d in pending then t.alternates[d] else Surviving(t.alternates[d], stale))
  }

  lemma PartialEnds(t: Tables, stale: NodeId)
    ensures Partial(t, stale, t.alternates.Keys) == Tables(WithoutNextHop(t.routes, stale), t.alternates)
    ensures Partial(t, stale, {}) == Failover(t, stale)
  {
    assert Promotable(t, stale) - t.alternates.Keys == {};
    assert Promotable(t, stale) - {} == Promotable(t, stale);
  }

  lemma PromotedStep(t: Tables, stale: NodeId, pending: set<NodeId>, dest: NodeId)
    requires dest in pending && dest in t.alternates
    ensures var live := Surviving(t.alternates[dest], stale);
            Promotable(t, stale) - (pending - {dest}) ==
            if live == [] then Promotable(t, stale) - pending else (Promotable(t, stale) - pending) + {dest}
  {
  }

  lemma PartialStep(t: Tables, stale: NodeId, pending: set<NodeId>, dest: NodeId)
    requires dest in pending && pending <= t.alternates.Keys
    ensures var p, live := Partial(t, stale, pending), Surviving(t.alternates[dest], stale);
            Partial(t, stale, pending - {dest}) ==
            Tables(if live == [] then p.routes else p.routes[dest := live[0]], p.alternates[dest := live])
  {
    var p, live := Partial(t, stale, pending), Surviving(t.alternates[dest], stale);
    var q := Partial(t, stale, pending - {dest});
    PromotedStep(t, stale, pending, dest);
    assert q.alternates == p.alternates[dest := live];
    if live != [] {
      assert q.routes == p.routes[dest := live[0]];
    }
  }

  lemma LinksKeepWf(h: HubState, l: Links)
    requires HubWf(h) && l.latencyMs == h.links.latencyMs
    ensures HubWf(h.(links := l))
  {
  }

  function Pinged(peers: seq<Addr>, resolvable: set<Addr>, now: int): map<Addr, int> {
    map a | a in peers && a in resolvable :: now
  }

  lemma PingedSnoc(m: map<Addr, int>, peers: seq<Addr>, a: Addr, resolvable: set<Addr>, now: int)
    ensures m + Pinged(peers + [a], resolvable, now) ==
            if a in resolvable then (m + Pinged(peers, resolvable, now))[a := now]
            else m + Pinged(peers, resolvable, now)
  {
  }

  class Engine {
    const cfg: HubConfig
    const registry: Registry
    var seqNo: nat
    var lastSeq: map<NodeId, nat>
    var peerByAddr: map<Addr, NodeId>
    var rebroadcasted: map<NodeId, nat>
    var linkRQ: map<NodeId, nat>
    var linkEQ: map<NodeId, nat>
    var latencyMs: map<NodeId, nat>
    var alternates: map<NodeId, seq<Route>>
    var pendingHello: map<Addr, int>

    /** The engine and the tables behind it as one value. */
    function View(): HubState
      reads this, registry
    {
      HubState(seqNo, Filters(lastSeq, rebroadcasted),
               Links(peerByAddr, linkRQ, linkEQ, latencyMs, pendingHello),
               Tables(registry.routes, alternates), registry.nodes)
    }

    ghost predicate Valid()
      reads this, registry
    {
      HubWf(View())
    }

    constructor (cfg: HubConfig, registry: Registry)
      requires registry.routes == map[]
      ensures this.cfg == cfg && this.registry == registry
      ensures Valid() && View() == EMPTY_HUB.(nodes := registry.nodes)
    {
      this.cfg, this.registry := cfg, registry;
      seqNo := 0;
      lastSeq, peerByAddr, rebroadcasted := map[], map[], map[];
      linkRQ, linkEQ, latencyMs := map[], map[], map[];
      alternates, pendingHello := map[], map[];
    }

    // ----- Sending -----

    method FloodOgm(msg: Ogm, except: Option<Addr>) returns (sent: seq<Datagram>)
      ensures sent == Datagrams(cfg, [Flood(msg, except)])
    {
      sent := [];
      for k := 0 to |cfg.peers|
        invariant sent == ToAll(msg, FloodTargets(cfg.peers[..k], cfg.resolvable, except))
      {
        var peer := cfg.peers[k];
        assert cfg.peers[..k + 1] == cfg.peers[..k] + [peer];
        FloodTargetsSnoc(cfg.peers[..k], cfg.resolvable, except, peer);
        if except == Some(peer) {
          continue;
        }
        if peer !in cfg.resolvable {
          continue;
        }
        sent := sent + [Datagram(msg, peer)];
      }
      assert cfg.peers[..|cfg.peers|] == cfg.peers;
      DatagramsOfOne(cfg, Flood(msg, except));
    }

    method BroadcastOnce() returns (sent: seq<Datagram>)
      requires Valid()
      modifies this`seqNo
      ensures Valid() && View() == Originate(cfg, old(View()), false).hub
      ensures sent == Datagrams(cfg, Originate(cfg, old(View()), false).floods)
      ensures seqNo == old(seqNo) + 1
      ensures sent == ToAll(Ogm(cfg.self, seqNo, cfg.ttl, seqNo == 1, None, 0), FloodTargets(cfg.peers, cfg.resolvable, None))
    {
      seqNo := seqNo + 1;
      sent := FloodOgm(Ogm(cfg.self, seqNo, cfg.ttl, seqNo == 1, None, 0), None);
    }

    method BroadcastStartup() returns (sent: seq<Datagram>)
      requires Valid()
      modifies this`seqNo
      ensures Valid() && View() == Originate(cfg, old(View()), true).hub
      ensures sent == Datagrams(cfg, Originate(cfg, old(View()), true).floods)
      ensures seqNo == old(seqNo) + 1
      ensures sent == ToAll(Ogm(cfg.self, seqNo, cfg.ttl, true, None, 0), FloodTargets(cfg.peers, cfg.resolvable, None))
    {
      seqNo := seqNo + 1;
      sent := FloodOgm(Ogm(cfg.self, seqNo, cfg.ttl, true, None, 0), None);
    }

    method RebroadcastStartup(msg: Ogm, from: Addr) returns (sent: seq<Datagram>)
      ensures sent == if msg.ttl == 0 then [] else Datagrams(cfg, [Flood(Forwarded(cfg, msg, true), Some(from))])
    {
      if msg.ttl == 0 {
        return [];
      }
      var reb := msg.(startup := true, ttl := Dec32(msg.ttl), hopCount := Inc32(msg.hopCount), lastHop := Some(cfg.self));
      sent := FloodOgm(reb, Some(from));
    }

    method SendHellos(now: int) returns (sent: seq<Addr>)
      requires Valid()
      modifies this`pendingHello
      ensures Valid() && View() == HelloSent(cfg, old(View()), now)
      ensures sent == FloodTargets(cfg.peers, cfg.resolvable, None)
      ensures forall a :: a in cfg.peers && a in cfg.resolvable ==> a in pendingHello && pendingHello[a] == now
      ensures forall a :: !(a in cfg.peers && a in cfg.resolvable) ==>
                (a in pendingHello <==> a in old(pendingHello)) && (a in pendingHello ==> pendingHello[a] == old(pendingHello)[a])
    {
      sent := [];
      for k := 0 to |cfg.peers|
        invariant sent == FloodTargets(cfg.peers[..k], cfg.resolvable, None)
        invariant pendingHello == old(pendingHello) + Pinged(cfg.peers[..k], cfg.resolvable, now)
      {
        var peer := cfg.peers[k];
        assert cfg.peers[..k + 1] == cfg.peers[..k] + [peer];
        FloodTargetsSnoc(cfg.peers[..k], cfg.resolvable, None, peer);
        PingedSnoc(old(pendingHello), cfg.peers[..k], peer, cfg.resolvable, now);
        if peer in cfg.resolvable {
          pendingHello := pendingHello[peer := now];
          sent := sent + [peer];
        }
      }
      assert cfg.peers[..|cfg.peers|] == cfg.peers;
      LinksKeepWf(old(View()), View().links);
    }

    // ----- Routes -----

    method StoreAlternate(route: Route)
      modifies this`alternates
      ensures alternates == OgmHub.StoreAlternate(old(alternates), route)
      ensures route.dest in alternates && alternates - {route.dest} == old(alternates) - {route.dest}
      ensures var before := if route.dest in old(alternates) then old(alternates)[route.dest] else [];
              if exists x :: x in before && x.nextHop == route.nextHop then alternates[route.dest] == before
              else if |before| < 3 then alternates[route.dest] == before + [route]
              else alternates[route.dest] == [before[|before| - 2], before[|before| - 1], route]
    {
      var key := route.dest;
      var alts := if key in alternates then alternates[key] else [];
      for k := 0 to |alts|
        invariant forall i :: 0 <= i < k ==> alts[i].nextHop != route.nextHop
      {
        if alts[k].nextHop == route.nextHop {
          assert OgmHub.StoreAlternate(alternates, route) == alternates;
          return;
        }
      }
      alternates := alternates[key := alts + [route]];
      assert forall x :: x in alts ==> x.nextHop != route.nextHop;
      if |alternates[key]| > MAX_ALTERNATES {
        alternates := alternates[key := alternates[key][|alternates[key]| - MAX_ALTERNATES..]];
      }
    }

    method MaybeUpsertRoute(candidate: Route)
      modifies this`alternates, registry`routes
      ensures Tables(registry.routes, alternates) ==
              OgmHub.MaybeUpsertRoute(old(Tables(registry.routes, alternates)), candidate)
      ensures registry.routes ==
              if candidate.dest !in old(registry.routes) ||
                 Better(ToMetric(candidate), ToMetric(old(registry.routes)[candidate.dest]))
              then old(registry.routes)[candidate.dest := candidate] else old(registry.routes)
      ensures (candidate.dest in old(registry.routes) ==> old(registry.routes)[candidate.dest].dest == candidate.dest) ==>
              alternates - {candidate.dest} == old(alternates) - {candidate.dest}
    {
      var current := registry.GetRoute(candidate.dest);
      if current.Some? && !Better(ToMetric(candidate), ToMetric(current.value)) {
        StoreAlternate(candidate);
        return;
      }
      if current.Some? {
        StoreAlternate(current.value);
      }
      registry.UpsertRoute(candidate);
    }

    // ----- Receiving -----

    method MaybeRebroadcast(msg: Ogm, from: Addr) returns (sent: seq<Datagram>)
      requires msg.ttl > 0
      modifies this`rebroadcasted
      ensures Filters(lastSeq, rebroadcasted) == Rebroadcasted(old(Filters(lastSeq, rebroadcasted)), msg)
      ensures sent == if Rebroadcasts(old(Filters(lastSeq, rebroadcasted)), msg)
                      then Datagrams(cfg, [Flood(Forwarded(cfg, msg, msg.startup), Some(from))]) else []
    {
      if msg.seqNo <= Count(rebroadcasted, msg.nodeId) {
        return [];
      }
      rebroadcasted := rebroadcasted[msg.nodeId := msg.seqNo];
      var reb := msg.(ttl := Dec32(msg.ttl), hopCount := Inc32(msg.hopCount), lastHop := Some(cfg.self));
      sent := FloodOgm(reb, Some(from));
    }

    method HandleOgm(msg: Ogm, from: Addr, now: int) returns (sent: seq<Datagram>)
      requires Valid()
      modifies this`lastSeq, this`rebroadcasted, this`peerByAddr, this`linkRQ, this`linkEQ, this`alternates
      modifies registry`nodes, registry`routes
      ensures Valid() && View() == OgmHub.HandleOgm(cfg, old(View()), msg, from, now).hub
      ensures sent == Datagrams(cfg, OgmHub.HandleOgm(cfg, old(View()), msg, from, now).floods)
    {
      ghost var before := View();
      HandleOgmKeepsWf(cfg, before, msg, from, now);
      if msg.nodeId == cfg.self {
        if msg.hopCount > 0 {
          linkEQ := Bump(linkEQ, ResolveForwarder(View().links, msg, from));
        }
        return [];
      }
      var forwarder := ResolveForwarder(View().links, msg, from);
      if msg.hopCount == 0 && msg.lastHop.None? {
        peerByAddr := peerByAddr[from := msg.nodeId];
        forwarder := msg.nodeId;
      }
      linkRQ := Bump(linkRQ, forwarder);
      if msg.nodeId in lastSeq && msg.seqNo <= lastSeq[msg.nodeId] {
        return [];
      }
      lastSeq := lastSeq[msg.nodeId := msg.seqNo];
      sent := HandleAccepted(msg, forwarder, from, now, before);
    }

    /** The rest of handleOgm, from the registry update on. */
    method HandleAccepted(msg: Ogm, forwarder: NodeId, from: Addr, now: int, ghost before: HubState)
      returns (sent: seq<Datagram>)
      requires Accepts(cfg, before, msg) && forwarder == Credited(before.links, msg, from)
      requires View() == before.(filters := Noted(before.filters, msg), links := Counted(before.links, msg, from))
      modifies this`rebroadcasted, this`alternates, registry`nodes, registry`routes
      ensures View() == Accept(cfg, before, msg, from, now).hub
      ensures sent == Datagrams(cfg, FloodsOf(cfg, before, msg, from))
    {
      sent := [];
      var statusChanged := registry.UpsertSeen(msg.nodeId, now);
      if statusChanged && cfg.hasHandler {
        sent := RebroadcastStartup(msg, from);
      }
      var hops := msg.hopCount + 1;
      var link := LinkTQ(View().links, forwarder);
      var pathTQ := if hops > 1 then PathTQ(link, VIA_TQ) else link;
      MaybeUpsertRoute(Route(msg.nodeId, forwarder, pathTQ, Count(latencyMs, forwarder) * hops, hops));
      assert Tables(registry.routes, alternates) == OgmHub.MaybeUpsertRoute(before.tables, Offer(before.links, msg, from));
      if msg.ttl > 0 {
        var more := MaybeRebroadcast(msg, from);
        if AnnouncesNode(cfg, before.nodes, msg) && Rebroadcasts(before.filters, msg) {
          DatagramsOfTwo(cfg, Flood(Forwarded(cfg, msg, true), Some(from)),
                         Flood(Forwarded(cfg, msg, msg.startup), Some(from)));
        }
        sent := sent + more;
      }
    }

    method HandleHello(sender: NodeId, from: Addr, now: int)
      requires Valid()
      modifies this`pendingHello, this`latencyMs
      ensures Valid() && View() == old(View()).(links := OgmHub.HandleHello(old(View()).links, sender, from, now))
      ensures from !in pendingHello && pendingHello == old(pendingHello) - {from}
      ensures latencyMs == if from in old(pendingHello) && 0 < now - old(pendingHello)[from] < 10000
                           then old(latencyMs)[sender := now - old(pendingHello)[from]] else old(latencyMs)
    {
      HandleHelloKeepsWf(View().links, sender, from, now);
      if from in pendingHello {
        var rtt := now - pendingHello[from];
        if 0 < rtt < MAX_RTT_MS {
          latencyMs := latencyMs[sender := rtt];
        }
        pendingHello := pendingHello - {from};
      }
    }

    method HandlePacket(f: Frame, from: Addr, now: int) returns (sent: seq<Datagram>)
      requires Valid()
      modifies this`lastSeq, this`rebroadcasted, this`peerByAddr, this`linkRQ, this`linkEQ, this`alternates
      modifies this`pendingHello, this`latencyMs, registry`nodes, registry`routes
      ensures Valid() && View() == OgmHub.HandlePacket(cfg, old(View()), f, from, now).hub
      ensures sent == Datagrams(cfg, OgmHub.HandlePacket(cfg, old(View()), f, from, now).floods)
      ensures latencyMs == old(latencyMs) && pendingHello == old(pendingHello)
    {
      var ogm := DecodeOgm(f);
      if ogm.Some? {
        sent := HandleOgm(ogm.value, from, now);
        return;
      }
      assert false;
    }

    // ----- Failover -----

    /** Visits the alternates in whatever order the map is iterated; the result is the same. */
    method FailoverRoutes(stale: NodeId)
      requires Valid()
      modifies this`alternates, registry`routes
      ensures Valid()
      ensures Tables(registry.routes, alternates) == Failover(old(Tables(registry.routes, alternates)), stale)
    {
      ghost var t := Tables(registry.routes, alternates);
      FailoverKeepsWf(t, stale);
      var _ := registry.DeleteRoutesViaNextHop(stale);
      var pending := alternates.Keys;
      PartialEnds(t, stale);
      while pending != {}
        invariant pending <= t.alternates.Keys
        invariant Tables(registry.routes, alternates) == Partial(t, stale, pending)
        decreases pending
      {
        var dest :| dest in pending;
        var remaining, promoted := SplitAlternates(alternates[dest], stale);
        PartialStep(t, stale, pending, dest);
        if promoted.Some? {
          SurvivingAre(t.alternates[dest], stale);
          assert Holds(t, dest, promoted.value);
          registry.UpsertRoute(promoted.value);
        }
        alternates := alternates[dest := remaining];
        pending := pending - {dest};
      }
    }

    /** The inner loop of failoverRoutes: keep the live alternates, promote the first. */
    method SplitAlternates(alts: seq<Route>, stale: NodeId) returns (remaining: seq<Route>, promoted: Option<Route>)
      ensures remaining == Surviving(alts, stale)
      ensures promoted == if remaining == [] then None else Some(remaining[0])
    {
      remaining, promoted := [], None;
      for k := 0 to |alts|
        invariant remaining == Surviving(alts[..k], stale)
        invariant promoted == if remaining == [] then None else Some(remaining[0])
      {
        assert alts[..k + 1] == alts[..k] + [alts[k]];
        SurvivingSnoc(alts[..k], alts[k], stale);
        if alts[k].nextHop == stale {
          continue;
        }
        remaining := remaining + [alts[k]];
        if promoted.None? {
          promoted := Some(alts[k]);
        }
      }
      assert alts[..|alts|] == alts;
    }

    /** One tick of staleSweepLoop: afterwards nothing stored goes through a node that was just
        marked stale, and every node reported stale was online and too long unheard. */
    method StaleSweep(cutoff: int) returns (stale: seq<NodeId>)
      requires Valid()
      modifies this`alternates, registry`routes, registry`nodes
      ensures Valid()
      ensures registry.nodes == MarkedStale(old(registry.nodes), cutoff)
      ensures forall id :: id in stale <==> id in StaleBefore(old(registry.nodes), cutoff)
      ensures Tables(registry.routes, alternates) == FailoverAll(old(Tables(registry.routes, alternates)), stale)
      ensures forall d, r :: Holds(Tables(registry.routes, alternates), d, r) ==> r.nextHop !in stale
    {
      ghost var t := Tables(registry.routes, alternates);
      stale := registry.MarkStaleBefore(cutoff);
      for k := 0 to |stale|
        invariant Valid()
        invariant registry.nodes == MarkedStale(old(registry.nodes), cutoff)
        invariant FailoverAll(t, stale) == FailoverAll(Tables(registry.routes, alternates), stale[k..])
      {
        assert stale[k..][1..] == stale[k + 1..];
        FailoverRoutes(stale[k]);
      }
      forall d, r | Holds(Tables(registry.routes, alternates), d, r) ensures r.nextHop !in stale {
        SweepClearsStaleHops(t, stale, d, r);
      }
    }
  }
}
