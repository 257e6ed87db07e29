/** A network of hubs exchanging OGMs over UDP, which may lose, reorder and duplicate. */
module OgmNetwork {
  import opened Mesh
  import opened Registry
  import opened OgmHub

  /** `ids` lists the hubs once each; `addrOf` is the source address receivers see; `listener`
      is the hub reached by sending to an address, if any. */
  datatype NetConfig = NetConfig(ids: seq<NodeId>, hub: map<NodeId, HubConfig>,
                                 addrOf: map<NodeId, Addr>, listener: map<Addr, NodeId>)

  ghost predicate ConfigWf(g: NetConfig) {
    && Distinct(g.ids)
    && (forall id :: id in g.ids <==> id in g.hub)
    && (forall id :: id in g.ids ==> id in g.addrOf && g.hub[id].self == id && g.hub[id].ttl < U32)
    && (forall a :: a in g.listener ==> g.listener[a] in g.ids)
  }

  datatype Packet = Packet(frame: Frame, from: NodeId, to: NodeId)

  datatype Net = Net(hubs: map<NodeId, HubState>, wire: seq<Packet>)

  /** One atomic step of the network.
      - Originate: broadcastOnce, or broadcastStartup when `startup` is set.
      - SendHello: sendHellos at time `sentAt`.
      - Deliver, Lose, Duplicate: UDP's treatment of the i-th datagram in flight.
      - StaleFailover: failoverRoutes for one node, at any moment between deliveries.
      - WriteNodes: any other writer of node_registry (stale marking, heartbeats, gossip). */
  datatype Step =
    | Originate(h: NodeId, startup: bool)
    | SendHello(h: NodeId, sentAt: nat)
    | Deliver(i: nat, now: int)
    | Lose(i: nat)
    | Duplicate(i: nat)
    | StaleFailover(h: NodeId, stale: NodeId)
    | WriteNodes(h: NodeId, nodes: NodeTable)

  function Init(g: NetConfig): Net {
    Net(map id | id in g.ids :: EMPTY_HUB, [])
  }

  predicate Enabled(g: NetConfig, n: Net, s: Step) {
    match s
    case Originate(h, _) => h in n.hubs && h in g.hub
    case SendHello(h, _) => h in n.hubs && h in g.hub
    case Deliver(i, _) =>
      i < |n.wire| && n.wire[i].to in n.hubs && n.wire[i].to in g.hub && n.wire[i].from in g.addrOf
    case Lose(i) => i < |n.wire|
    case Duplicate(i) => i < |n.wire|
    case StaleFailover(h, _) => h in n.hubs
    case WriteNodes(h, _) => h in n.hubs
  }

  // ----- Packets put on the wire -----

  /** Datagrams reach whoever listens at the address; others go nowhere. */
  function Post(g: NetConfig, f: Frame, from: NodeId, targets: seq<Addr>): seq<Packet> {
    if targets == [] then []
    else
      (if targets[0] in g.listener then [Packet(f, from, g.listener[targets[0]])] else []) +
      Post(g, f, from, targets[1..])
  }

  function PostFlood(g: NetConfig, h: NodeId, f: Flood): seq<Packet>
    requires h in g.hub
  {
    Post(g, OgmFrame(f.msg), h, FloodTargets(g.hub[h].peers, g.hub[h].resolvable, f.except))
  }

  function PostFloods(g: NetConfig, h: NodeId, floods: seq<Flood>): seq<Packet>
    requires h in g.hub
  {
    if floods == [] then [] else PostFlood(g, h, floods[0]) + PostFloods(g, h, floods[1..])
  }

  // ----- Steps -----

  /** What the receiving hub does with the i-th datagram. */
  function Received(g: NetConfig, n: Net, i: nat, now: int): Outcome
    requires Enabled(g, n, Deliver(i, now))
  {
    var p := n.wire[i];
    HandlePacket(g.hub[p.to], n.hubs[p.to], p.frame, g.addrOf[p.from], now)
  }

  /** The floods one step performs, and by whom. */
  function FloodsIn(g: NetConfig, n: Net, s: Step): (NodeId, seq<Flood>)
    requires Enabled(g, n, s)
  {
    match s
    case Originate(h, startup) => (h, OgmHub.Originate(g.hub[h], n.hubs[h], startup).floods)
    case Deliver(i, now) => (n.wire[i].to, Received(g, n, i, now).floods)
    case _ => (ZERO_ID, [])
  }

  function Without<T>(s: seq<T>, i: nat): seq<T>
    requires i < |s|
  {
    s[..i] + s[i + 1..]
  }

  function Next(g: NetConfig, n: Net, s: Step): Net
    requires Enabled(g, n, s)
  {
    match s
    case Originate(h, startup) =>
      var o := OgmHub.Originate(g.hub[h], n.hubs[h], startup);
      Net(n.hubs[h := o.hub], n.wire + PostFloods(g, h, o.floods))
    case SendHello(h, sentAt) =>
      Net(n.hubs[h := HelloSent(g.hub[h], n.hubs[h], sentAt)],
          n.wire + Post(g, HelloFrame(h, sentAt), h, FloodTargets(g.hub[h].peers, g.hub[h].resolvable, None)))
    case Deliver(i, now) =>
      var o := Received(g, n, i, now);
      Net(n.hubs[n.wire[i].to := o.hub], Without(n.wire, i) + PostFloods(g, n.wire[i].to, o.floods))
    case Lose(i) => n.(wire := Without(n.wire, i))
    case Duplicate(i) => n.(wire := n.wire + [n.wire[i]])
    case StaleFailover(h, stale) =>
      n.(hubs := n.hubs[h := n.hubs[h].(tables := Failover(n.hubs[h].tables, stale))])
    case WriteNodes(h, nodes) =>
      n.(hubs := n.hubs[h := n.hubs[h].(nodes := nodes)])
  }

  // ----- Runs -----

  predicate ValidRun(g: NetConfig, n: Net, steps: seq<Step>)
    decreases |steps|
  {
    steps == [] || (Enabled(g, n, steps[0]) && ValidRun(g, Next(g, n, steps[0]), steps[1..]))
  }

  function Run(g: NetConfig, n: Net, steps: seq<Step>): Net
    requires ValidRun(g, n, steps)
    decreases |steps|
  {
    if steps == [] then n else Run(g, Next(g, n, steps[0]), steps[1..])
  }

  lemma {:induction false} RunConcat(g: NetConfig, n: Net, a: seq<Step>, b: seq<Step>)
    requires ValidRun(g, n, a) && ValidRun(g, Run(g, n, a), b)
    ensures ValidRun(g, n, a + b) && Run(g, n, a + b) == Run(g, Run(g, n, a), b)
    decreases |a|
  {
    if a == [] {
      assert a + b == b;
    } else {
      assert (a + b)[1..] == a[1..] + b;
      RunConcat(g, Next(g, n, a[0]), a[1..], b);
    }
  }

  lemma RunOne(g: NetConfig, n: Net, s: Step)
    requires Enabled(g, n, s)
    ensures ValidRun(g, n, [s]) && Run(g, n, [s]) == Next(g, n, s)
  {
    assert [s][1..] == [];
    assert ValidRun(g, Next(g, n, s), []) && Run(g, Next(g, n, s), []) == Next(g, n, s);
  }

  lemma RunTwo(g: NetConfig, n: Net, s: Step, t: Step)
    requires Enabled(g, n, s) && Enabled(g, Next(g, n, s), t)
    ensures ValidRun(g, n, [s, t]) && Run(g, n, [s, t]) == Next(g, Next(g, n, s), t)
  {
    var n1 := Next(g, n, s);
    var n2 := Next(g, n1, t);
    assert [s, t][1..] == [t] && [t][1..] == [];
    assert ValidRun(g, n2, []) && Run(g, n2, []) == n2;
    assert ValidRun(g, n1, [t]) && Run(g, n1, [t]) == n2;
  }

  lemma RunThree(g: NetConfig, n: Net, s: Step, t: Step, u: Step)
    requires Enabled(g, n, s) && Enabled(g, Next(g, n, s), t) && Enabled(g, Next(g, Next(g, n, s), t), u)
    ensures ValidRun(g, n, [s, t, u]) && Run(g, n, [s, t, u]) == Next(g, Next(g, Next(g, n, s), t), u)
  {
    RunTwo(g, Next(g, n, s), t, u);
    assert [s, t, u][1..] == [t, u];
  }

  /** A sweep at hub h, one failover after the other. */
  function SweepSteps(h: NodeId, stale: seq<NodeId>): seq<Step> {
    seq(|stale|, i requires 0 <= i < |stale| => StaleFailover(h, stale[i]))
  }

  /** The loop of a stale sweep is a run of the network, in which other steps may come in between. */
  lemma {:induction false} SweepIsARun(g: NetConfig, n: Net, h: NodeId, stale: seq<NodeId>)
    requires h in n.hubs
    ensures ValidRun(g, n, SweepSteps(h, stale))
    ensures var n' := Run(g, n, SweepSteps(h, stale));
            n'.wire == n.wire && n'.hubs == n.hubs[h := n.hubs[h].(tables := FailoverAll(n.hubs[h].tables, stale))]
    decreases |stale|
  {
    if stale == [] {
      assert n.hubs[h := n.hubs[h]] == n.hubs;
    } else {
      assert SweepSteps(h, stale)[1..] == SweepSteps(h, stale[1..]);
      SweepIsARun(g, Next(g, n, StaleFailover(h, stale[0])), h, stale[1..]);
    }
  }

  /** Names for the addresses in small example meshes. */
  lemma AddressesDiffer()
    ensures "a" != "b" && "a" != "c" && "a" != "d" && "b" != "c" && "b" != "d" && "c" != "d"
  {
    assert "a"[0] == 'a' && "b"[0] == 'b' && "c"[0] == 'c' && "d"[0] == 'd';
  }

  // ----- Facts about posting -----

  /** There is a peer entry of `a` that reaches `b`. */
  ghost predicate Link(g: NetConfig, a: NodeId, b: NodeId) {
    a in g.hub && exists p :: p in g.hub[a].peers && p in g.hub[a].resolvable && p in g.listener && g.listener[p] == b
  }

  lemma {:induction false} PostAre(g: NetConfig, f: Frame, from: NodeId, targets: seq<Addr>)
    ensures |Post(g, f, from, targets)| <= |targets|
    ensures forall p :: p in Post(g, f, from, targets) ==>
              p.frame == f && p.from == from && exists a :: a in targets && a in g.listener && g.listener[a] == p.to
    ensures forall a :: a in targets && a in g.listener ==>
              Packet(f, from, g.listener[a]) in Post(g, f, from, targets)
  {
    if targets != [] {
      PostAre(g, f, from, targets[1..]);
    }
  }

  /** What is sent to peer addresses arrives at linked hubs only. */
  lemma PostedToLinked(g: NetConfig, f: Frame, h: NodeId, except: Option<Addr>, p: Packet)
    requires h in g.hub && p in Post(g, f, h, FloodTargets(g.hub[h].peers, g.hub[h].resolvable, except))
    ensures p.frame == f && p.from == h && Link(g, h, p.to)
  {
    var peers, ok := g.hub[h].peers, g.hub[h].resolvable;
    FloodTargetsAre(peers, ok, except);
    PostAre(g, f, h, FloodTargets(peers, ok, except));
  }

  lemma {:induction false} PostFloodsAre(g: NetConfig, h: NodeId, floods: seq<Flood>, p: Packet)
    requires h in g.hub && p in PostFloods(g, h, floods)
    ensures p.frame.OgmFrame? && p.from == h && Link(g, h, p.to)
    ensures exists f :: f in floods && p.frame.ogm == f.msg
  {
    if p in PostFlood(g, h, floods[0]) {
      PostedToLinked(g, OgmFrame(floods[0].msg), h, floods[0].except, p);
    } else {
      PostFloodsAre(g, h, floods[1..], p);
    }
  }

  lemma {:induction false} PostFloodsCount(g: NetConfig, h: NodeId, floods: seq<Flood>)
    requires h in g.hub
    ensures |PostFloods(g, h, floods)| <= |floods| * |g.hub[h].peers|
  {
    if floods != [] {
      var peers, ok := g.hub[h].peers, g.hub[h].resolvable;
      PostFloodsCount(g, h, floods[1..]);
      FloodTargetsAre(peers, ok, floods[0].except);
      PostAre(g, OgmFrame(floods[0].msg), h, FloodTargets(peers, ok, floods[0].except));
      assert |floods| * |peers| == |peers| + (|floods| - 1) * |peers|;
    }
  }

  lemma WithoutMembers<T>(s: seq<T>, i: nat, x: T)
    requires i < |s|
    ensures x in Without(s, i) ==> x in s
    ensures x in s ==> x == s[i] || x in Without(s, i)
  {
    if x in s {
      var j :| 0 <= j < |s| && s[j] == x;
      if j < i {
        assert Without(s, i)[j] == x;
      } else if j > i {
        assert Without(s, i)[j - 1] == x;
      }
    }
  }
}
