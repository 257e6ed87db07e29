/** One hub's OGM engine as a function on its state
    (hub/internal/ogmengine/ogmengine.go). */
module OgmHub {
  import opened Mesh
  import opened Routing
  import opened Registry

  /** wire.Ogm without the optional GPS fields, which hubs never fill in. */
  datatype Ogm = Ogm(nodeId: NodeId, seqNo: nat, ttl: nat, startup: bool,
                     lastHop: Option<NodeId>, hopCount: nat)

  /** A datagram's payload: either message is a node id followed by a number. */
  datatype Frame =
    | OgmFrame(ogm: Ogm)
    | HelloFrame(nodeId: NodeId, sentAt: nat)

  /** `resolvable` holds the peer strings that net.ResolveUDPAddr accepts. */
  datatype HubConfig = HubConfig(self: NodeId, peers: seq<Addr>, resolvable: set<Addr>,
                                 ttl: nat, hasHandler: bool)

  /** The two duplicate filters. */
  datatype Filters = Filters(lastSeq: map<NodeId, nat>, rebroadcasted: map<NodeId, nat>)

  /** What the hub knows about its neighbours. */
  datatype Links = Links(
    peerByAddr: map<Addr, NodeId>,
    linkRQ: map<NodeId, nat>,
    linkEQ: map<NodeId, nat>,
    latencyMs: map<NodeId, nat>,
    pendingHello: map<Addr, int>)

  /** The routing table and the alternates kept beside it. */
  datatype Tables = Tables(routes: RouteTable, alternates: map<NodeId, seq<Route>>)

  datatype HubState = HubState(seqNo: nat, filters: Filters, links: Links, tables: Tables, nodes: NodeTable)

  const EMPTY_HUB := HubState(0, Filters(map[], map[]), Links(map[], map[], map[], map[], map[]),
                              Tables(map[], map[]), map[])

  /** One call of floodOgm: the message and the address that is skipped. */
  datatype Flood = Flood(msg: Ogm, except: Option<Addr>)

  datatype Outcome = Outcome(hub: HubState, floods: seq<Flood>)

  // ----- Sending -----

  /** The peer addresses one flood writes to, in configuration order. */
  function FloodTargets(peers: seq<Addr>, resolvable: set<Addr>, except: Option<Addr>): seq<Addr> {
    if peers == [] then []
    else
      (if except == Some(peers[0]) || peers[0] !in resolvable then [] else [peers[0]]) +
      FloodTargets(peers[1..], resolvable, except)
  }

  lemma {:induction false} FloodTargetsAre(peers: seq<Addr>, resolvable: set<Addr>, except: Option<Addr>)
    ensures |FloodTargets(peers, resolvable, except)| <= |peers|
    ensures forall a :: a in FloodTargets(peers, resolvable, except) <==>
                        a in peers && a in resolvable && except != Some(a)
  {
    if peers != [] {
      FloodTargetsAre(peers[1..], resolvable, except);
    }
  }

  /** sendHellos notes when each resolvable peer was pinged. */
  function HelloSent(c: HubConfig, h: HubState, now: int): HubState {
    h.(links := h.links.(pendingHello :=
      h.links.pendingHello + map a | a in c.peers && a in c.resolvable :: now))
  }

  function Originate(c: HubConfig, h: HubState, startup: bool): Outcome {
    var s := h.seqNo + 1;
    Outcome(h.(seqNo := s),
            [Flood(Ogm(c.self, s, c.ttl, startup || s == 1, None, 0), None)])
  }

  /** The copy a forwarder sends on: one hop further, one less to live. */
  function Forwarded(c: HubConfig, msg: Ogm, startup: bool): Ogm {
    msg.(startup := startup, ttl := Dec32(msg.ttl), hopCount := Inc32(msg.hopCount), lastHop := Some(c.self))
  }

  // ----- Receiving -----

  /** Reading a datagram as an Ogm: Hello shares its first two fields, so it decodes too,
      with every other field at its zero value. */
  function DecodeOgm(f: Frame): Option<Ogm> {
    match f
    case OgmFrame(ogm) => Some(ogm)
    case HelloFrame(id, sentAt) => Some(Ogm(id, sentAt, 0, false, None, 0))
  }

  function Bump(m: map<NodeId, nat>, k: NodeId): map<NodeId, nat> {
    m[k := Inc32(Count(m, k))]
  }

  function ResolveForwarder(l: Links, msg: Ogm, from: Addr): NodeId {
    match msg.lastHop
    case Some(id) => id
    case None => if from in l.peerByAddr then l.peerByAddr[from] else msg.nodeId
  }

  function LinkTQ(l: Links, neighbor: NodeId): (tq: real)
    ensures 0.0 <= tq <= 1.0
  {
    var rq := Count(l.linkRQ, neighbor);
    ComputeTQ(Count(l.linkEQ, neighbor), if rq > 1 then rq else 1)
  }

  const VIA_TQ := 0.85

  function Candidate(l: Links, msg: Ogm, forwarder: NodeId): Route {
    var hops := msg.hopCount + 1;
    var link := LinkTQ(l, forwarder);
    Route(msg.nodeId, forwarder,
          if hops > 1 then PathTQ(link, VIA_TQ) else link,
          Count(l.latencyMs, forwarder) * hops, hops)
  }

  const MAX_ALTERNATES := 3

  /** One destination's list after a route was pushed aside: a next hop is listed once,
      and the oldest entry goes when there are too many. */
  function AddAlternate(alts: seq<Route>, r: Route): seq<Route> {
    if exists i :: 0 <= i < |alts| && alts[i].nextHop == r.nextHop then alts
    else
      var longer := alts + [r];
      if |longer| > MAX_ALTERNATES then longer[|longer| - MAX_ALTERNATES..] else longer
  }

  function AlternatesFor(alternates: map<NodeId, seq<Route>>, d: NodeId): seq<Route> {
    if d in alternates then alternates[d] else []
  }

  function StoreAlternate(alternates: map<NodeId, seq<Route>>, r: Route): map<NodeId, seq<Route>> {
    alternates[r.dest := AddAlternate(AlternatesFor(alternates, r.dest), r)]
  }

  predicate Replaces(routes: RouteTable, r: Route) {
    r.dest !in routes || Better(ToMetric(r), ToMetric(routes[r.dest]))
  }

  function MaybeUpsertRoute(t: Tables, r: Route): Tables {
    if !Replaces(t.routes, r) then
      t.(alternates := StoreAlternate(t.alternates, r))
    else if r.dest in t.routes then
      Tables(t.routes[r.dest := r], StoreAlternate(t.alternates, t.routes[r.dest]))
    else
      t.(routes := t.routes[r.dest := r])
  }

  predicate IsDirect(msg: Ogm) {
    msg.hopCount == 0 && msg.lastHop.None?
  }

  /** The neighbour a message is credited to. */
  function Credited(l: Links, msg: Ogm, from: Addr): NodeId {
    if IsDirect(msg) then msg.nodeId else ResolveForwarder(l, msg, from)
  }

  /** The link bookkeeping done for every foreign message, duplicate or not. */
  function Counted(l: Links, msg: Ogm, from: Addr): Links {
    l.(peerByAddr := if IsDirect(msg) then l.peerByAddr[from := msg.nodeId] else l.peerByAddr,
       linkRQ := Bump(l.linkRQ, Credited(l, msg, from)))
  }

  predicate IsDuplicate(f: Filters, msg: Ogm) {
    msg.nodeId in f.lastSeq && msg.seqNo <= f.lastSeq[msg.nodeId]
  }

  function Noted(f: Filters, msg: Ogm): Filters {
    f.(lastSeq := f.lastSeq[msg.nodeId := msg.seqNo])
  }

  /** The guard in maybeRebroadcast together with the time-to-live check before it. */
  predicate Rebroadcasts(f: Filters, msg: Ogm) {
    msg.ttl > 0 && msg.seqNo > Count(f.rebroadcasted, msg.nodeId)
  }

  function Rebroadcasted(f: Filters, msg: Ogm): Filters {
    if Rebroadcasts(f, msg) then f.(rebroadcasted := f.rebroadcasted[msg.nodeId := msg.seqNo]) else f
  }

  /** An accepted message announces a node that was not online before. */
  predicate AnnouncesNode(c: HubConfig, nodes: NodeTable, msg: Ogm) {
    c.hasHandler && !IsOnline(nodes, msg.nodeId) && msg.ttl > 0
  }

  /** The floods of an accepted message: the startup copy, then the ordinary rebroadcast. */
  function FloodsOf(c: HubConfig, h: HubState, msg: Ogm, from: Addr): seq<Flood> {
    (if AnnouncesNode(c, h.nodes, msg) then [Flood(Forwarded(c, msg, true), Some(from))] else []) +
    (if Rebroadcasts(h.filters, msg) then [Flood(Forwarded(c, msg, msg.startup), Some(from))] else [])
  }

  /** The route an accepted message offers. */
  function Offer(l: Links, msg: Ogm, from: Addr): Route {
    Candidate(Counted(l, msg, from), msg, Credited(l, msg, from))
  }

  /** Everything after the duplicate check: filters, registry, route, floods. */
  function Accept(c: HubConfig, h: HubState, msg: Ogm, from: Addr, now: int): Outcome {
    Outcome(
      HubState(h.seqNo,
               Rebroadcasted(Noted(h.filters, msg), msg),
               Counted(h.links, msg, from),
               MaybeUpsertRoute(h.tables, Offer(h.links, msg, from)),
               Seen(h.nodes, msg.nodeId, now)),
      FloodsOf(c, h, msg, from))
  }

  /** An own OGM that came back counts as an echo from the neighbour that sent it. */
  function Echoed(l: Links, msg: Ogm, from: Addr): Links {
    if msg.hopCount > 0 then l.(linkEQ := Bump(l.linkEQ, ResolveForwarder(l, msg, from))) else l
  }

  predicate Accepts(c: HubConfig, h: HubState, msg: Ogm) {
    msg.nodeId != c.self && !IsDuplicate(h.filters, msg)
  }

  function HandleOgm(c: HubConfig, h: HubState, msg: Ogm, from: Addr, now: int): Outcome {
    if msg.nodeId == c.self then Outcome(h.(links := Echoed(h.links, msg, from)), [])
    else if IsDuplicate(h.filters, msg) then Outcome(h.(links := Counted(h.links, msg, from)), [])
    else Accept(c, h, msg, from, now)
  }

  const MAX_RTT_MS := 10000

  /** handleHello: would turn a pending Hello into a latency measurement. */
  function HandleHello(l: Links, sender: NodeId, from: Addr, now: int): Links {
    if from !in l.pendingHello then l
    else
      var rtt := now - l.pendingHello[from];
      l.(pendingHello := l.pendingHello - {from},
         latencyMs := if 0 < rtt < MAX_RTT_MS then l.latencyMs[sender := rtt] else l.latencyMs)
  }

  function HandlePacket(c: HubConfig, h: HubState, f: Frame, from: Addr, now: int): Outcome {
    match DecodeOgm(f)
    case Some(ogm) => HandleOgm(c, h, ogm, from, now)
    case None =>
      Outcome(if f.HelloFrame? then h.(links := HandleHello(h.links, f.nodeId, from, now)) else h, [])
  }

  // ----- Failover -----

  function Surviving(alts: seq<Route>, stale: NodeId): seq<Route> {
    if alts == [] then []
    else (if alts[0].nextHop == stale then [] else [alts[0]]) + Surviving(alts[1..], stale)
  }

  lemma {:induction false} SurvivingAre(alts: seq<Route>, stale: NodeId)
    ensures |Surviving(alts, stale)| <= |alts|
    ensures forall r :: r in Surviving(alts, stale) <==> r in alts && r.nextHop != stale
  {
    if alts != [] {
      SurvivingAre(alts[1..], stale);
    }
  }

  /** Destinations that have an alternate not through `stale`. */
  function Promotable(t: Tables, stale: NodeId): set<NodeId> {
    set d | d in t.alternates && Surviving(t.alternates[d], stale) != []
  }

  function Failover(t: Tables, stale: NodeId): Tables {
    Tables(WithoutNextHop(t.routes, stale) +
             (map d | d in Promotable(t, stale) :: Surviving(t.alternates[d], stale)[0]),
           map d | d in t.alternates :: Surviving(t.alternates[d], stale))
  }

  function FailoverAll(t: Tables, stale: seq<NodeId>): Tables
    decreases |stale|
  {
    if stale == [] then t else FailoverAll(Failover(t, stale[0]), stale[1..])
  }
}
