/** Every stored route, in every reachable state, is backed by a loop-free path of peer links. */
module OgmPaths {
  import opened Mesh
  import opened Routing
  import opened OgmHub
  import opened OgmHubFacts
  import opened OgmNetwork

  ghost predicate IsPath(g: NetConfig, path: seq<NodeId>) {
    && path != []
    && Distinct(path)
    && (forall x :: x in path ==> x in g.ids)
    && forall i :: 0 <= i < |path| - 1 ==> Link(g, path[i], path[i + 1])
  }

  function Last<T>(s: seq<T>): T
    requires s != []
  {
    s[|s| - 1]
  }

  /** The path that witnesses route r at hub h: as many links as the hop count, from the
      destination to h, entering h from the next hop, no hub twice. */
  ghost predicate Witness(g: NetConfig, h: NodeId, r: Route, path: seq<NodeId>) {
    && IsPath(g, path)
    && |path| >= 2
    && |path| == r.hopCount + 1
    && path[0] == r.dest
    && Last(path) == h
    && path[|path| - 2] == r.nextHop
  }

  ghost predicate Backed(g: NetConfig, h: NodeId, r: Route) {
    exists path: seq<NodeId> :: Witness(g, h, r, path)
  }

  predicate HasSeen(n: Net, h: NodeId, origin: NodeId, seqNo: nat) {
    h in n.hubs && origin in n.hubs[h].filters.lastSeq && n.hubs[h].filters.lastSeq[origin] >= seqNo
  }

  /** The hubs a message passed through: all but the first have recorded its sequence number. */
  ghost predicate Trail(g: NetConfig, n: Net, m: Ogm, trail: seq<NodeId>) {
    && IsPath(g, trail)
    && |trail| == m.hopCount + 1
    && trail[0] == m.nodeId
    && m.lastHop == (if m.hopCount == 0 then None else Some(Last(trail)))
    && forall i :: 1 <= i < |trail| ==> HasSeen(n, trail[i], m.nodeId, m.seqNo)
  }

  /** Hops travelled and hops left add up to the origin's configured TTL, so neither counter wraps. */
  predicate TtlBudget(g: NetConfig, f: Frame) {
    match f
    case OgmFrame(m) => m.nodeId in g.hub && m.ttl + m.hopCount == g.hub[m.nodeId].ttl && m.seqNo >= 1
    case HelloFrame(id, _) => id in g.hub
  }

  function MessageOf(f: Frame): Ogm {
    DecodeOgm(f).value
  }

  ghost predicate PacketOk(g: NetConfig, n: Net, p: Packet) {
    && p.to in g.ids
    && Link(g, p.from, p.to)
    && TtlBudget(g, p.frame)
    && exists trail: seq<NodeId> :: Trail(g, n, MessageOf(p.frame), trail) && Last(trail) == p.from
  }

  ghost predicate HubOk(g: NetConfig, id: NodeId, h: HubState) {
    && HubWf(h)
    && h.links.latencyMs == map[]
    && forall d, r :: Holds(h.tables, d, r) ==> RouteOk(g, id, r)
  }

  ghost predicate RouteOk(g: NetConfig, id: NodeId, r: Route) {
    && Backed(g, id, r)
    && r.dest in g.hub
    && r.hopCount <= g.hub[r.dest].ttl + 1
    && r.latencyMs == 0
  }

  ghost predicate HubsOk(g: NetConfig, n: Net) {
    && (forall id :: id in n.hubs <==> id in g.ids)
    && forall id :: id in n.hubs ==> HubOk(g, id, n.hubs[id])
  }

  ghost predicate WireOk(g: NetConfig, n: Net) {
    forall p :: p in n.wire ==> PacketOk(g, n, p)
  }

  ghost predicate Inv(g: NetConfig, n: Net) {
    HubsOk(g, n) && WireOk(g, n)
  }

  // ----- Monotonicity -----

  /** No step makes a hub forget a sequence number. */
  ghost predicate Remembers(n: Net, n': Net) {
    forall h, o, s :: HasSeen(n, h, o, s) ==> HasSeen(n', h, o, s)
  }

  lemma HandlingRemembers(c: HubConfig, h: HubState, m: Ogm, from: Addr, now: int, o: NodeId)
    requires o in h.filters.lastSeq
    ensures var f := HandleOgm(c, h, m, from, now).hub.filters; o in f.lastSeq && h.filters.lastSeq[o] <= f.lastSeq[o]
  {
  }

  lemma NextRemembers(g: NetConfig, n: Net, s: Step)
    requires Enabled(g, n, s)
    ensures Remembers(n, Next(g, n, s))
  {
    var n' := Next(g, n, s);
    forall h, o, q | HasSeen(n, h, o, q) ensures HasSeen(n', h, o, q) {
      if s.Deliver? {
        var p := n.wire[s.i];
        if h == p.to {
          HandlingRemembers(g.hub[h], n.hubs[h], MessageOf(p.frame), g.addrOf[p.from], s.now, o);
        }
      } else if h in n.hubs {
        assert n'.hubs[h].filters == n.hubs[h].filters;
      }
    }
  }

  lemma {:induction false} RunRemembers(g: NetConfig, n: Net, steps: seq<Step>, h: NodeId, o: NodeId, q: nat)
    requires ValidRun(g, n, steps) && HasSeen(n, h, o, q)
    ensures HasSeen(Run(g, n, steps), h, o, q)
    decreases |steps|
  {
    if steps != [] {
      NextRemembers(g, n, steps[0]);
      RunRemembers(g, Next(g, n, steps[0]), steps[1..], h, o, q);
    }
  }

  lemma PacketStaysOk(g: NetConfig, n: Net, n': Net, p: Packet)
    requires PacketOk(g, n, p) && Remembers(n, n')
    ensures PacketOk(g, n', p)
  {
    var trail: seq<NodeId> :| Trail(g, n, MessageOf(p.frame), trail) && Last(trail) == p.from;
    assert Trail(g, n', MessageOf(p.frame), trail);
  }

  // ----- One delivery -----

  /** A hub that accepts a message is not on the message's trail. */
  lemma AcceptorIsFresh(g: NetConfig, n: Net, h: NodeId, m: Ogm, trail: seq<NodeId>)
    requires ConfigWf(g) && h in g.ids && h in n.hubs
    requires Trail(g, n, m, trail) && Accepts(g.hub[h], n.hubs[h], m)
    ensures h !in trail
  {
  }

  lemma ExtendPath(g: NetConfig, path: seq<NodeId>, h: NodeId)
    requires IsPath(g, path) && h in g.ids && h !in path && Link(g, Last(path), h)
    ensures IsPath(g, path + [h])
  {
  }

  /** A message is credited to the hub that sent it. */
  lemma CreditedIsSender(g: NetConfig, n: Net, l: Links, m: Ogm, trail: seq<NodeId>, from: Addr)
    requires Trail(g, n, m, trail)
    ensures Credited(l, m, from) == Last(trail)
  {
  }

  /** Any route that matches an accepted message is backed by the message's trail. */
  lemma BackedByTrail(g: NetConfig, n: Net, p: Packet, r: Route, trail: seq<NodeId>)
    requires ConfigWf(g) && p.to in g.ids && p.to in n.hubs && Link(g, p.from, p.to)
    requires var m := MessageOf(p.frame);
             && Trail(g, n, m, trail) && Last(trail) == p.from
             && Accepts(g.hub[p.to], n.hubs[p.to], m)
             && r.dest == m.nodeId && r.nextHop == p.from && r.hopCount == m.hopCount + 1
    ensures Backed(g, p.to, r)
  {
    AcceptorIsFresh(g, n, p.to, MessageOf(p.frame), trail);
    ExtendPath(g, trail, p.to);
    assert Witness(g, p.to, r, trail + [p.to]);
  }

  lemma OfferShape(l: Links, m: Ogm, from: Addr)
    requires l.latencyMs == map[]
    ensures var r := Offer(l, m, from);
            r.dest == m.nodeId && r.nextHop == Credited(l, m, from) && r.hopCount == m.hopCount + 1 && r.latencyMs == 0
  {
  }

  lemma TtlOfMessage(g: NetConfig, f: Frame)
    requires TtlBudget(g, f)
    ensures var m := MessageOf(f); m.nodeId in g.hub && m.ttl + m.hopCount <= g.hub[m.nodeId].ttl
  {
  }

  /** The route offered by an accepted message is backed. */
  lemma OfferIsBacked(g: NetConfig, n: Net, p: Packet, r: Route)
    requires ConfigWf(g) && PacketOk(g, n, p) && p.to in n.hubs && n.hubs[p.to].links.latencyMs == map[]
    requires Accepts(g.hub[p.to], n.hubs[p.to], MessageOf(p.frame))
    requires r == Offer(n.hubs[p.to].links, MessageOf(p.frame), g.addrOf[p.from])
    ensures RouteOk(g, p.to, r)
  {
    var m := MessageOf(p.frame);
    var trail: seq<NodeId> :| Trail(g, n, m, trail) && Last(trail) == p.from;
    CreditedIsSender(g, n, n.hubs[p.to].links, m, trail, g.addrOf[p.from]);
    OfferShape(n.hubs[p.to].links, m, g.addrOf[p.from]);
    BackedByTrail(g, n, p, r, trail);
    TtlOfMessage(g, p.frame);
  }

  /** What an accepting hub floods is again a good packet. */
  lemma FloodIsOk(g: NetConfig, n: Net, n': Net, p: Packet, q: Packet, startup: bool)
    requires ConfigWf(g) && PacketOk(g, n, p) && p.frame.OgmFrame? && p.to in n.hubs
    requires var m := p.frame.ogm;
             && Accepts(g.hub[p.to], n.hubs[p.to], m) && m.ttl > 0
             && q.frame == OgmFrame(Forwarded(g.hub[p.to], m, startup))
             && q.from == p.to && Link(g, p.to, q.to) && q.to in g.ids
             && Remembers(n, n') && HasSeen(n', p.to, m.nodeId, m.seqNo)
    ensures PacketOk(g, n', q)
  {
    var m := p.frame.ogm;
    var trail: seq<NodeId> :| Trail(g, n, m, trail) && Last(trail) == p.from;
    AcceptorIsFresh(g, n, p.to, m, trail);
    ExtendPath(g, trail, p.to);
    var longer := trail + [p.to];
    assert Last(longer) == p.to;
    assert Trail(g, n', MessageOf(q.frame), longer);
  }

  lemma LinkedIsHub(g: NetConfig, a: NodeId, b: NodeId)
    requires ConfigWf(g) && Link(g, a, b)
    ensures a in g.ids && b in g.ids
  {
  }

  lemma DeliverKeepsHub(g: NetConfig, n: Net, i: nat, now: int)
    requires ConfigWf(g) && Inv(g, n) && Enabled(g, n, Deliver(i, now))
    ensures HubOk(g, n.wire[i].to, Received(g, n, i, now).hub)
  {
    var p := n.wire[i];
    var c, h, m, from := g.hub[p.to], n.hubs[p.to], MessageOf(p.frame), g.addrOf[p.from];
    assert PacketOk(g, n, p) && HubOk(g, p.to, h);
    HelloIsReadAsOgm(c, h, p.frame, from, now);
    HandleOgmKeepsWf(c, h, m, from, now);
    var h' := HandleOgm(c, h, m, from, now).hub;
    if Accepts(c, h, m) {
      var offer := Offer(h.links, m, from);
      OfferIsBacked(g, n, p, offer);
      forall d, r | Holds(h'.tables, d, r) ensures RouteOk(g, p.to, r) {
        OfferHolds(h.tables, offer, d, r);
      }
    }
  }

  /** A hub floods something only after accepting a message with time to live left. */
  lemma FloodsAreForwarded(c: HubConfig, h: HubState, m: Ogm, from: Addr, now: int, f: Flood)
    requires f in HandleOgm(c, h, m, from, now).floods
    ensures Accepts(c, h, m) && m.ttl > 0
    ensures f.msg == Forwarded(c, m, true) || f.msg == Forwarded(c, m, m.startup)
    ensures f.except == Some(from)
  {
  }

  lemma DeliverRecords(g: NetConfig, n: Net, i: nat, now: int)
    requires Enabled(g, n, Deliver(i, now))
    requires Accepts(g.hub[n.wire[i].to], n.hubs[n.wire[i].to], MessageOf(n.wire[i].frame))
    ensures var m := MessageOf(n.wire[i].frame);
            HasSeen(Next(g, n, Deliver(i, now)), n.wire[i].to, m.nodeId, m.seqNo)
  {
  }

  lemma DeliverKeepsWire(g: NetConfig, n: Net, i: nat, now: int, q: Packet)
    requires ConfigWf(g) && WireOk(g, n) && Enabled(g, n, Deliver(i, now))
    requires q in Next(g, n, Deliver(i, now)).wire
    ensures PacketOk(g, Next(g, n, Deliver(i, now)), q)
  {
    var p := n.wire[i];
    var n' := Next(g, n, Deliver(i, now));
    NextRemembers(g, n, Deliver(i, now));
    if q in Without(n.wire, i) {
      WithoutMembers(n.wire, i, q);
      PacketStaysOk(g, n, n', q);
    } else {
      var floods := Received(g, n, i, now).floods;
      PostFloodsAre(g, p.to, floods, q);
      LinkedIsHub(g, p.to, q.to);
      var f :| f in floods && q.frame.ogm == f.msg;
      FloodsAreForwarded(g.hub[p.to], n.hubs[p.to], MessageOf(p.frame), g.addrOf[p.from], now, f);
      DeliverRecords(g, n, i, now);
      assert PacketOk(g, n, p);
      if f.msg == Forwarded(g.hub[p.to], p.frame.ogm, true) {
        FloodIsOk(g, n, n', p, q, true);
      } else {
        FloodIsOk(g, n, n', p, q, p.frame.ogm.startup);
      }
    }
  }

  // ----- The other steps -----

  lemma OriginatedIsOk(g: NetConfig, n: Net, q: Packet)
    requires ConfigWf(g) && q.from in g.hub && Link(g, q.from, q.to) && TtlBudget(g, q.frame)
    requires IsDirect(MessageOf(q.frame)) && MessageOf(q.frame).nodeId == q.from
    ensures PacketOk(g, n, q)
  {
    LinkedIsHub(g, q.from, q.to);
    assert Trail(g, n, MessageOf(q.frame), [q.from]);
  }

  lemma OriginateKeepsWire(g: NetConfig, n: Net, h: NodeId, startup: bool, q: Packet)
    requires ConfigWf(g) && WireOk(g, n) && Enabled(g, n, Originate(h, startup))
    requires q in Next(g, n, Originate(h, startup)).wire
    ensures PacketOk(g, Next(g, n, Originate(h, startup)), q)
  {
    var n' := Next(g, n, Originate(h, startup));
    NextRemembers(g, n, Originate(h, startup));
    if q in n.wire {
      PacketStaysOk(g, n, n', q);
    } else {
      PostFloodsAre(g, h, OgmHub.Originate(g.hub[h], n.hubs[h], startup).floods, q);
      OriginatedIsOk(g, n', q);
    }
  }

  lemma SendHelloKeepsWire(g: NetConfig, n: Net, h: NodeId, sentAt: nat, q: Packet)
    requires ConfigWf(g) && WireOk(g, n) && Enabled(g, n, SendHello(h, sentAt))
    requires q in Next(g, n, SendHello(h, sentAt)).wire
    ensures PacketOk(g, Next(g, n, SendHello(h, sentAt)), q)
  {
    var n' := Next(g, n, SendHello(h, sentAt));
    NextRemembers(g, n, SendHello(h, sentAt));
    if q in n.wire {
      PacketStaysOk(g, n, n', q);
    } else {
      PostedToLinked(g, HelloFrame(h, sentAt), h, None, q);
      OriginatedIsOk(g, n', q);
    }
  }

  lemma FailoverKeepsHub(g: NetConfig, id: NodeId, h: HubState, stale: NodeId)
    requires HubOk(g, id, h)
    ensures HubOk(g, id, h.(tables := Failover(h.tables, stale)))
  {
    FailoverKeepsWf(h.tables, stale);
    forall d, r | Holds(Failover(h.tables, stale), d, r) ensures RouteOk(g, id, r) {
      FailoverHolds(h.tables, stale, d, r);
    }
  }

  lemma SameTablesOk(g: NetConfig, id: NodeId, h: HubState, h': HubState)
    requires HubOk(g, id, h) && h'.tables == h.tables && h'.filters == h.filters
    requires h'.links.latencyMs == h.links.latencyMs
    ensures HubOk(g, id, h')
  {
  }

  lemma ReplaceHub(g: NetConfig, n: Net, id: NodeId, h': HubState, n': Net)
    requires HubsOk(g, n) && id in n.hubs && HubOk(g, id, h') && n'.hubs == n.hubs[id := h']
    ensures HubsOk(g, n')
  {
  }

  /** The hub a step changes, if any, and its new state. */
  function Touched(g: NetConfig, n: Net, s: Step): Option<(NodeId, HubState)>
    requires Enabled(g, n, s)
  {
    match s
    case Originate(h, startup) => Some((h, OgmHub.Originate(g.hub[h], n.hubs[h], startup).hub))
    case SendHello(h, sentAt) => Some((h, HelloSent(g.hub[h], n.hubs[h], sentAt)))
    case Deliver(i, now) => Some((n.wire[i].to, Received(g, n, i, now).hub))
    case Lose(_) => None
    case Duplicate(_) => None
    case StaleFailover(h, stale) => Some((h, n.hubs[h].(tables := Failover(n.hubs[h].tables, stale))))
    case WriteNodes(h, nodes) => Some((h, n.hubs[h].(nodes := nodes)))
  }

  lemma TouchedIsOk(g: NetConfig, n: Net, s: Step)
    requires ConfigWf(g) && Inv(g, n) && Enabled(g, n, s) && Touched(g, n, s).Some?
    ensures HubOk(g, Touched(g, n, s).value.0, Touched(g, n, s).value.1)
  {
    if s.Deliver? {
      DeliverKeepsHub(g, n, s.i, s.now);
    } else if s.StaleFailover? {
      FailoverKeepsHub(g, s.h, n.hubs[s.h], s.stale);
    } else {
      var (id, h') := Touched(g, n, s).value;
      SameTablesOk(g, id, n.hubs[id], h');
    }
  }

  lemma NextKeepsHubs(g: NetConfig, n: Net, s: Step)
    requires ConfigWf(g) && Inv(g, n) && Enabled(g, n, s)
    ensures HubsOk(g, Next(g, n, s))
  {
    match Touched(g, n, s)
    case None =>
    case Some((id, h')) =>
      TouchedIsOk(g, n, s);
      ReplaceHub(g, n, id, h', Next(g, n, s));
  }

  lemma NextKeepsWire(g: NetConfig, n: Net, s: Step, q: Packet)
    requires ConfigWf(g) && WireOk(g, n) && Enabled(g, n, s) && q in Next(g, n, s).wire
    ensures PacketOk(g, Next(g, n, s), q)
  {
    if s.Originate? {
      OriginateKeepsWire(g, n, s.h, s.startup, q);
    } else if s.SendHello? {
      SendHelloKeepsWire(g, n, s.h, s.sentAt, q);
    } else if s.Deliver? {
      DeliverKeepsWire(g, n, s.i, s.now, q);
    } else {
      NextRemembers(g, n, s);
      if s.Lose? {
        WithoutMembers(n.wire, s.i, q);
      }
      PacketStaysOk(g, n, Next(g, n, s), q);
    }
  }

  lemma NextKeepsInv(g: NetConfig, n: Net, s: Step)
    requires ConfigWf(g) && Inv(g, n) && Enabled(g, n, s)
    ensures Inv(g, Next(g, n, s))
  {
    NextKeepsHubs(g, n, s);
    forall q | q in Next(g, n, s).wire ensures PacketOk(g, Next(g, n, s), q) {
      NextKeepsWire(g, n, s, q);
    }
  }

  lemma InitInv(g: NetConfig)
    requires ConfigWf(g)
    ensures Inv(g, Init(g))
  {
  }

  lemma {:induction false} RunKeepsInv(g: NetConfig, n: Net, steps: seq<Step>)
    requires ConfigWf(g) && Inv(g, n) && ValidRun(g, n, steps)
    ensures Inv(g, Run(g, n, steps))
    decreases |steps|
  {
    if steps != [] {
      NextKeepsInv(g, n, steps[0]);
      RunKeepsInv(g, Next(g, n, steps[0]), steps[1..]);
    }
  }

  // ----- The theorems -----

  /** In every state reachable from the empty network, whatever UDP does, each stored route is
      witnessed by a loop-free path of exactly its hop count. */
  lemma RoutesAreBacked(g: NetConfig, steps: seq<Step>, h: NodeId, d: NodeId, r: Route)
    requires ConfigWf(g) && ValidRun(g, Init(g), steps)
    requires h in Run(g, Init(g), steps).hubs && Holds(Run(g, Init(g), steps).hubs[h].tables, d, r)
    ensures r.dest == d && Backed(g, h, r)
    ensures Link(g, r.nextHop, h) && r.nextHop != h && r.dest != h
    ensures 1 <= r.hopCount <= g.hub[d].ttl + 1
    ensures r.hopCount <= |g.ids| - 1
  {
    InitInv(g);
    RunKeepsInv(g, Init(g), steps);
    assert HubOk(g, h, Run(g, Init(g), steps).hubs[h]);
    var path: seq<NodeId> :| Witness(g, h, r, path);
    assert Link(g, path[|path| - 2], path[|path| - 1]);
    PathLength(g, path);
  }

  lemma PathLength(g: NetConfig, path: seq<NodeId>)
    requires IsPath(g, path)
    ensures |path| <= |g.ids|
  {
    var universe := set x | x in g.ids;
    DistinctBound(path, universe);
    SetOfSeq(g.ids);
  }

  lemma {:induction false} SetOfSeq<T>(s: seq<T>)
    ensures |set x | x in s| <= |s|
  {
    if s != [] {
      SetOfSeq(s[1..]);
      assert (set x | x in s) == {s[0]} + set x | x in s[1..];
    }
  }

  /** What is measured of every stored route: link quality within [0, 1] and at most 0.85 beyond one
      hop; because a Hello is never treated as one, latency stays 0, and in a mesh of at most 2^32
      hubs the cost lies within 40 of ten per hop. */
  lemma RoutesAreMeasured(g: NetConfig, steps: seq<Step>, h: NodeId, d: NodeId, r: Route)
    requires ConfigWf(g) && ValidRun(g, Init(g), steps)
    requires h in Run(g, Init(g), steps).hubs && Holds(Run(g, Init(g), steps).hubs[h].tables, d, r)
    ensures 0.0 <= r.tq <= (if r.hopCount > 1 then VIA_TQ else 1.0)
    ensures r.latencyMs == 0
    ensures |g.ids| <= U32 ==>
            10.0 * r.hopCount as real <= Cost(ToMetric(r)) <= 10.0 * r.hopCount as real + 40.0
  {
    InitInv(g);
    RunKeepsInv(g, Init(g), steps);
    assert HubOk(g, h, Run(g, Init(g), steps).hubs[h]);
    RoutesAreBacked(g, steps, h, d, r);
    if |g.ids| <= U32 {
      MeasuredCost(r);
    }
  }

  /** Alternates stay short, through distinct neighbours. */
  lemma AlternatesStayShort(g: NetConfig, steps: seq<Step>, h: NodeId, d: NodeId)
    requires ConfigWf(g) && ValidRun(g, Init(g), steps)
    requires h in Run(g, Init(g), steps).hubs && d in Run(g, Init(g), steps).hubs[h].tables.alternates
    ensures var alts := Run(g, Init(g), steps).hubs[h].tables.alternates[d];
            |alts| <= MAX_ALTERNATES && DistinctHops(alts) && forall r :: r in alts ==> r.dest == d
  {
    InitInv(g);
    RunKeepsInv(g, Init(g), steps);
    var h' := Run(g, Init(g), steps).hubs[h];
    assert HubOk(g, h, h');
    forall r | r in h'.tables.alternates[d] ensures r.dest == d {
      assert Holds(h'.tables, d, r);
    }
  }

  /** No hub ever stores a route to itself. */
  lemma NoRouteToSelf(g: NetConfig, steps: seq<Step>, h: NodeId)
    requires ConfigWf(g) && ValidRun(g, Init(g), steps) && h in Run(g, Init(g), steps).hubs
    ensures h !in Run(g, Init(g), steps).hubs[h].tables.routes
  {
    var t := Run(g, Init(g), steps).hubs[h].tables;
    if h in t.routes {
      assert Holds(t, h, t.routes[h]);
      RoutesAreBacked(g, steps, h, h, t.routes[h]);
    }
  }

  /** In flight, hops travelled plus hops left never exceed the origin's TTL and are equal to it
      for true OGMs, so the unsigned decrement and increment never wrap. */
  lemma TtlNeverWraps(g: NetConfig, steps: seq<Step>, p: Packet)
    requires ConfigWf(g) && ValidRun(g, Init(g), steps) && p in Run(g, Init(g), steps).wire
    ensures var m := MessageOf(p.frame);
            && m.nodeId in g.hub && m.ttl + m.hopCount <= g.hub[m.nodeId].ttl
            && (p.frame.OgmFrame? ==> m.ttl + m.hopCount == g.hub[m.nodeId].ttl)
            && (m.ttl > 0 ==> Dec32(m.ttl) == m.ttl - 1 && Inc32(m.hopCount) == m.hopCount + 1)
  {
    InitInv(g);
    RunKeepsInv(g, Init(g), steps);
    assert PacketOk(g, Run(g, Init(g), steps), p);
  }
}
