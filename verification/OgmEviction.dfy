/** Four neighbours offer a destination and one of them is forgotten, as a run of the network from the start. */
module OgmEviction {
  import opened Mesh
  import opened Routing
  import opened OgmHub
  import opened OgmHubFacts
  import opened OgmNetwork

  const RELAYS: set<NodeId> := {1, 2, 3, 4}
  const HUBS: set<NodeId> := {1, 2, 3, 4, 5, 6}

  /** Hubs 1 to 6 have the addresses "a" to AddressOf(6). */
  function AddressOf(k: NodeId): Addr
    requires k in HUBS
  {
    [('a' as int + k - 1) as char]
  }

  function ConfigOf(k: NodeId): HubConfig
    requires k in HUBS
  {
    if k == 5 then
      var relays := [AddressOf(1), AddressOf(2), AddressOf(3), AddressOf(4)];
      HubConfig(5, relays, set a | a in relays, 4, false)
    else if k == 6 then HubConfig(6, [], {}, 4, false)
    else RelayConfig(k)
  }

  function RelayConfig(k: NodeId): HubConfig {
    HubConfig(k, [AddressOf(6)], {AddressOf(6)}, 4, false)
  }

  /** Hub 5 has four neighbours, each of which has hub 6 for a neighbour. */
  function Star(): NetConfig {
    NetConfig([1, 2, 3, 4, 5, 6], map k | k in HUBS :: ConfigOf(k), map k | k in HUBS :: AddressOf(k),
              map a | a in (set k | k in HUBS :: AddressOf(k)) :: a[0] as int - 'a' as int + 1)
  }

  /** What the run needs to know of the mesh. */
  ghost predicate IsStar(g: NetConfig) {
    && g.hub.Keys == g.addrOf.Keys == HUBS && g.addrOf[5] == AddressOf(5)
    && (forall k :: k in RELAYS ==> g.hub[k] == RelayConfig(k))
    && g.hub[6] == HubConfig(6, [], {}, 4, false)
    && g.hub[5] == HubConfig(5, g.hub[5].peers, g.hub[5].resolvable, 4, false) && |g.hub[5].peers| == 4
    && (forall i :: 0 <= i < 4 ==> var a := g.hub[5].peers[i]; a in g.hub[5].resolvable && a in g.listener && g.listener[a] == i + 1)
    && AddressOf(6) in g.listener && g.listener[AddressOf(6)] == 6
  }

  lemma Listens(g: NetConfig, k: NodeId)
    requires g == Star() && k in HUBS
    ensures AddressOf(k) in g.listener && g.listener[AddressOf(k)] == k
  {
  }

  lemma ListenersAreHubs(g: NetConfig, a: Addr)
    requires g == Star() && a in g.listener
    ensures g.listener[a] in HUBS
  {
    var k :| k in HUBS && AddressOf(k) == a;
    Listens(g, k);
  }

  lemma IdsAreHubs()
    ensures Distinct([1, 2, 3, 4, 5, 6]) && forall id: NodeId :: id in [1, 2, 3, 4, 5, 6] <==> id in HUBS
  {
  }

  lemma HubIsConfigured(g: NetConfig, k: NodeId)
    requires g == Star()
    ensures k in g.hub <==> k in HUBS
    ensures k in HUBS ==> k in g.addrOf && g.hub[k].self == k && g.hub[k].ttl == 4
  {
  }

  lemma StarIsWellFormed(g: NetConfig)
    requires g == Star()
    ensures ConfigWf(g)
  {
    IdsAreHubs();
    forall k: NodeId ensures k in g.hub <==> k in HUBS
                     ensures k in HUBS ==> k in g.addrOf && g.hub[k].self == k && g.hub[k].ttl == 4
    {
      HubIsConfigured(g, k);
    }
    forall a | a in g.listener ensures g.listener[a] in HUBS {
      ListenersAreHubs(g, a);
    }
  }

  lemma OriginReachesRelays(g: NetConfig, i: nat)
    requires g == Star() && i < 4
    ensures |g.hub[5].peers| == 4
    ensures var a := g.hub[5].peers[i]; a in g.hub[5].resolvable && a in g.listener && g.listener[a] == i + 1
  {
    Listens(g, i + 1);
    assert g.hub[5].peers[i] == AddressOf(i + 1);
  }

  lemma StarIsStar(g: NetConfig)
    requires g == Star()
    ensures IsStar(g)
  {
    Listens(g, 6);
    forall i | 0 <= i < 4 ensures var a := g.hub[5].peers[i]; a in g.hub[5].resolvable && a in g.listener && g.listener[a] == i + 1 {
      OriginReachesRelays(g, i);
    }
  }

  // ----- What each hub does -----

  /** Hub 5's OGM number s, and the copy that relay k sends on. */
  function Sent(s: nat): Ogm {
    Ogm(5, s, 4, s == 1, None, 0)
  }

  function Relayed(s: nat, k: NodeId): Ogm {
    Ogm(5, s, 3, s == 1, Some(k), 1)
  }

  function Via(k: NodeId): Route {
    Route(5, k, 0.0, 0, 2)
  }

  /** A hub that has not recorded number s of hub 5. */
  predicate Behind(h: HubState, s: nat) {
    && (5 in h.filters.lastSeq ==> h.filters.lastSeq[5] < s)
    && Count(h.filters.rebroadcasted, 5) < s
  }

  predicate Unmeasured(h: HubState) {
    h.links.linkEQ == map[] && h.links.latencyMs == map[]
  }

  lemma RelayPasses(k: NodeId, h: HubState, s: nat, now: int)
    requires k in RELAYS && s >= 1 && Behind(h, s)
    ensures HandleOgm(RelayConfig(k), h, Sent(s), AddressOf(5), now).floods == [Flood(Relayed(s, k), Some(AddressOf(5)))]
    ensures Behind(HandleOgm(RelayConfig(k), h, Sent(s), AddressOf(5), now).hub, s + 1)
  {
  }

  /** What hub 6 takes from the copy that relay k passed on. */
  lemma HubHears(c: HubConfig, h: HubState, s: nat, k: NodeId, from: Addr, now: int)
    requires c == HubConfig(6, [], {}, 4, false) && k in RELAYS && Behind(h, s) && Unmeasured(h)
    ensures var h' := HandleOgm(c, h, Relayed(s, k), from, now).hub;
            Behind(h', s + 1) && Unmeasured(h') && h'.tables == MaybeUpsertRoute(h.tables, Via(k))
  {
    NoEchoes(Counted(h.links, Relayed(s, k), from), k);
    assert PathTQ(0.0, VIA_TQ) == 0.0;
    assert Offer(h.links, Relayed(s, k), from) == Via(k);
  }

  /** Equally good routes: the first stays, the others are listed. */
  lemma SameCost(t: Tables, k: NodeId, j: NodeId)
    requires 5 in t.routes && t.routes[5] == Via(j)
    ensures MaybeUpsertRoute(t, Via(k)) == t.(alternates := StoreAlternate(t.alternates, Via(k)))
  {
    assert Cost(ToMetric(Via(k))) == 60.0 && Cost(ToMetric(Via(j))) == 60.0;
  }

  // ----- What goes over the wire -----

  lemma {:induction false} AllTargets(peers: seq<Addr>, resolvable: set<Addr>)
    requires forall a :: a in peers ==> a in resolvable
    ensures FloodTargets(peers, resolvable, None) == peers
  {
    if peers != [] {
      assert peers[0] in peers;
      AllTargets(peers[1..], resolvable);
    }
  }

  lemma {:induction false} AllArrive(g: NetConfig, f: Frame, h: NodeId, targets: seq<Addr>)
    requires forall a :: a in targets ==> a in g.listener
    ensures |Post(g, f, h, targets)| == |targets|
    ensures forall i :: 0 <= i < |targets| ==> Post(g, f, h, targets)[i] == Packet(f, h, g.listener[targets[i]])
  {
    if targets != [] {
      assert targets[0] in targets;
      AllArrive(g, f, h, targets[1..]);
    }
  }

  lemma PostToRelays(g: NetConfig, m: Ogm)
    requires IsStar(g)
    ensures var ps := PostFloods(g, 5, [Flood(m, None)]);
            |ps| == 4 && forall k :: k in RELAYS ==> ps[k - 1] == Packet(OgmFrame(m), 5, k)
  {
    AllTargets(g.hub[5].peers, g.hub[5].resolvable);
    AllArrive(g, OgmFrame(m), 5, g.hub[5].peers);
    assert [Flood(m, None)][1..] == [];
    assert PostFloods(g, 5, []) == [];
  }

  lemma PostToHub(g: NetConfig, k: NodeId, m: Ogm)
    requires IsStar(g) && k in RELAYS
    ensures PostFloods(g, k, [Flood(m, Some(AddressOf(5)))]) == [Packet(OgmFrame(m), k, 6)]
  {
    assert [AddressOf(6)][1..] == [];
    assert FloodTargets([AddressOf(6)], {AddressOf(6)}, Some(AddressOf(5))) == [AddressOf(6)];
    assert Post(g, OgmFrame(m), k, []) == [];
    assert Post(g, OgmFrame(m), k, [AddressOf(6)]) == [Packet(OgmFrame(m), k, 6)];
    assert [Flood(m, Some(AddressOf(5)))][1..] == [];
    assert PostFloods(g, k, []) == [];
  }

  lemma {:induction false} PostNowhere(g: NetConfig, floods: seq<Flood>)
    requires IsStar(g)
    ensures PostFloods(g, 6, floods) == []
  {
    if floods != [] {
      assert PostFlood(g, 6, floods[0]) == [];
      PostNowhere(g, floods[1..]);
    }
  }

  // ----- One round: hub 5 originates, relay k is the quickest -----

  /** Everybody is behind number s, hub 5 has sent s - 1, and hub 6 has these tables. */
  ghost predicate Ready(n: Net, s: nat, tables: Tables) {
    && n.hubs.Keys == HUBS && n.hubs[5].seqNo + 1 == s
    && (forall k :: k in RELAYS ==> Behind(n.hubs[k], s))
    && Behind(n.hubs[6], s) && Unmeasured(n.hubs[6]) && n.hubs[6].tables == tables
  }

  /** Nothing is lost, pinged, duplicated or failed over. */
  predicate Undisturbed(steps: seq<Step>) {
    forall x :: x in steps ==> x.Originate? || x.Deliver?
  }

  /** These steps lead from one state to the other. */
  predicate Leads(g: NetConfig, n: Net, steps: seq<Step>, n': Net) {
    Undisturbed(steps) && ValidRun(g, n, steps) && n' == Run(g, n, steps)
  }

  lemma Onwards(g: NetConfig, n: Net, a: seq<Step>, n1: Net, b: seq<Step>, n2: Net)
    requires Leads(g, n, a, n1) && Leads(g, n1, b, n2)
    ensures Leads(g, n, a + b, n2)
  {
    RunConcat(g, n, a, b);
  }

  /** Hub 5 has sent OGM number s to all four. */
  ghost predicate SentToAll(n: Net, n': Net, s: nat) {
    && |n'.wire| == |n.wire| + 4
    && (forall k :: k in RELAYS ==> n'.wire[|n.wire| + k - 1] == Packet(OgmFrame(Sent(s)), 5, k))
    && n.hubs.Keys == n'.hubs.Keys == HUBS && n'.hubs[5].seqNo == s
    && forall j :: j in HUBS && j != 5 ==> n'.hubs[j] == n.hubs[j]
  }

  lemma OriginatesToAll(g: NetConfig, n: Net, s: nat, tables: Tables) returns (steps: seq<Step>, n': Net)
    requires IsStar(g) && Ready(n, s, tables)
    ensures Leads(g, n, steps, n')
    ensures SentToAll(n, n', s)
  {
    PostToRelays(g, Sent(s));
    steps, n' := [Originate(5, false)], Next(g, n, Originate(5, false));
    RunOne(g, n, Originate(5, false));
  }

  /** Relay k has taken it and passed it on. */
  ghost predicate TakenBy(n: Net, n': Net, k: NodeId, s: nat) {
    && |n'.wire| == |n.wire| > 0 && n'.wire[|n.wire| - 1] == Packet(OgmFrame(Relayed(s, k)), k, 6)
    && n.hubs.Keys == n'.hubs.Keys == HUBS && k in HUBS && Behind(n'.hubs[k], s + 1)
    && forall j :: j in HUBS && j != k ==> n'.hubs[j] == n.hubs[j]
  }

  lemma RelayTakes(g: NetConfig, n: Net, i: nat, k: NodeId, s: nat) returns (steps: seq<Step>, n': Net)
    requires IsStar(g) && n.hubs.Keys == HUBS && k in RELAYS && s >= 1 && Behind(n.hubs[k], s)
    requires i < |n.wire| && n.wire[i] == Packet(OgmFrame(Sent(s)), 5, k)
    ensures Leads(g, n, steps, n')
    ensures TakenBy(n, n', k, s)
  {
    RelayPasses(k, n.hubs[k], s, 100);
    PostToHub(g, k, Relayed(s, k));
    steps, n' := [Deliver(i, 100)], Next(g, n, Deliver(i, 100));
    assert n'.wire == Without(n.wire, i) + [Packet(OgmFrame(Relayed(s, k)), k, 6)];
    RunOne(g, n, Deliver(i, 100));
  }

  lemma HubTakes(g: NetConfig, n: Net, i: nat, k: NodeId, s: nat)
    requires IsStar(g) && n.hubs.Keys == HUBS && k in RELAYS && Behind(n.hubs[6], s) && Unmeasured(n.hubs[6])
    requires i < |n.wire| && n.wire[i] == Packet(OgmFrame(Relayed(s, k)), k, 6)
    ensures Enabled(g, n, Deliver(i, 100))
    ensures var n' := Next(g, n, Deliver(i, 100));
            && n'.wire == Without(n.wire, i) && n'.hubs.Keys == n.hubs.Keys
            && Behind(n'.hubs[6], s + 1) && Unmeasured(n'.hubs[6])
            && n'.hubs[6].tables == MaybeUpsertRoute(n.hubs[6].tables, Via(k))
            && forall j :: j in n.hubs && j != 6 ==> n'.hubs[j] == n.hubs[j]
  {
    HubHears(g.hub[6], n.hubs[6], s, k, g.addrOf[k], 100);
    PostNowhere(g, Received(g, n, i, 100).floods);
  }

  /** Where a round leaves the hubs. */
  lemma ReadyAgain(n: Net, n': Net, k: NodeId, s: nat, tables: Tables)
    requires Ready(n, s, tables) && k in RELAYS && n'.hubs.Keys == HUBS && n'.hubs[5].seqNo == s
    requires forall j :: j in RELAYS && j != k ==> n'.hubs[j] == n.hubs[j]
    requires Behind(n'.hubs[k], s + 1) && Behind(n'.hubs[6], s + 1) && Unmeasured(n'.hubs[6])
    ensures Ready(n', s + 1, n'.hubs[6].tables)
  {
  }

  /** The first half: relay k has the OGM and passes it on. */
  ghost predicate Halfway(n: Net, n2: Net, k: NodeId, s: nat)
    requires k in RELAYS && n.hubs.Keys == HUBS
  {
    && n2.hubs.Keys == HUBS && n2.hubs[5].seqNo == s && n2.hubs[6] == n.hubs[6] && Behind(n2.hubs[k], s + 1)
    && (forall j :: j in RELAYS && j != k ==> n2.hubs[j] == n.hubs[j])
    && |n2.wire| == |n.wire| + 4 && n2.wire[|n.wire| + 3] == Packet(OgmFrame(Relayed(s, k)), k, 6)
  }

  lemma HalfwayThere(n: Net, n1: Net, n2: Net, k: NodeId, s: nat)
    requires k in RELAYS && SentToAll(n, n1, s) && TakenBy(n1, n2, k, s)
    ensures Halfway(n, n2, k, s)
  {
  }

  lemma HubEnds(g: NetConfig, n: Net, n2: Net, k: NodeId, s: nat, tables: Tables) returns (steps: seq<Step>, n': Net)
    requires IsStar(g) && k in RELAYS && s >= 1 && Ready(n, s, tables) && Halfway(n, n2, k, s)
    ensures Leads(g, n2, steps, n')
    ensures Ready(n', s + 1, MaybeUpsertRoute(tables, Via(k)))
  {
    HubTakes(g, n2, |n.wire| + 3, k, s);
    n' := Next(g, n2, Deliver(|n.wire| + 3, 100));
    ReadyAgain(n, n', k, s, tables);
    RunOne(g, n2, Deliver(|n.wire| + 3, 100));
    steps := [Deliver(|n.wire| + 3, 100)];
  }

  lemma RelayIsNext(n: Net, n1: Net, k: NodeId, s: nat, tables: Tables)
    requires k in RELAYS && Ready(n, s, tables) && SentToAll(n, n1, s)
    ensures n1.hubs.Keys == HUBS && Behind(n1.hubs[k], s)
    ensures |n.wire| + k - 1 < |n1.wire| && n1.wire[|n.wire| + k - 1] == Packet(OgmFrame(Sent(s)), 5, k)
  {
  }

  lemma RelayStage(g: NetConfig, n: Net, n1: Net, k: NodeId, s: nat, tables: Tables) returns (steps: seq<Step>, n2: Net)
    requires IsStar(g) && k in RELAYS && s >= 1 && Ready(n, s, tables) && SentToAll(n, n1, s)
    ensures Leads(g, n1, steps, n2)
    ensures Halfway(n, n2, k, s)
  {
    RelayIsNext(n, n1, k, s, tables);
    steps, n2 := RelayTakes(g, n1, |n.wire| + k - 1, k, s);
    HalfwayThere(n, n1, n2, k, s);
  }

  lemma RunsHalf(g: NetConfig, n: Net, k: NodeId, s: nat, tables: Tables) returns (steps: seq<Step>, n2: Net)
    requires IsStar(g) && k in RELAYS && s >= 1 && Ready(n, s, tables)
    ensures Leads(g, n, steps, n2)
    ensures Halfway(n, n2, k, s)
  {
    var first, n1 := OriginatesToAll(g, n, s, tables);
    var second, last := RelayStage(g, n, n1, k, s, tables);
    Onwards(g, n, first, n1, second, last);
    steps, n2 := first + second, last;
  }

  lemma RunsRound(g: NetConfig, n: Net, k: NodeId, s: nat, tables: Tables) returns (steps: seq<Step>, n': Net)
    requires IsStar(g) && k in RELAYS && s >= 1 && Ready(n, s, tables)
    ensures Leads(g, n, steps, n')
    ensures Ready(n', s + 1, MaybeUpsertRoute(tables, Via(k)))
  {
    var half, n2 := RunsHalf(g, n, k, s, tables);
    var rest, last := HubEnds(g, n, n2, k, s, tables);
    Onwards(g, n, half, n2, rest, last);
    steps, n' := half + rest, last;
  }

  // ----- Five rounds -----

  /** Hub 6 routes through relay 1 and lists these alternates. */
  predicate Stored(t: Tables, alts: seq<Route>) {
    5 in t.routes && t.routes[5] == Via(1) && AlternatesFor(t.alternates, 5) == alts
  }

  /** A run of such rounds from the start. */
  ghost predicate Reaches(g: NetConfig, steps: seq<Step>, n: Net, s: nat, alts: seq<Route>) {
    Leads(g, Init(g), steps, n) && 6 in n.hubs && Ready(n, s, n.hubs[6].tables) && Stored(n.hubs[6].tables, alts)
  }

  lemma FirstRound(g: NetConfig) returns (steps: seq<Step>, n: Net)
    requires IsStar(g) && g.ids == [1, 2, 3, 4, 5, 6]
    ensures Reaches(g, steps, n, 2, [])
  {
    var none := Tables(map[], map[]);
    assert Ready(Init(g), 1, none);
    steps, n := RunsRound(g, Init(g), 1, 1, none);
    assert MaybeUpsertRoute(none, Via(1)) == Tables(map[5 := Via(1)], map[]);
  }

  /** An equally good route is listed last, and takes the place of the oldest if three are listed. */
  lemma Listed(t: Tables, alts: seq<Route>, k: NodeId)
    requires Stored(t, alts) && |alts| <= 3 && forall x :: x in alts ==> x.nextHop != k
    ensures Stored(MaybeUpsertRoute(t, Via(k)), if |alts| < 3 then alts + [Via(k)] else [alts[1], alts[2], Via(k)])
  {
    SameCost(t, k, 1);
  }

  lemma AnotherRound(g: NetConfig, steps: seq<Step>, n: Net, s: nat, alts: seq<Route>, k: NodeId)
    returns (longer: seq<Step>, n': Net)
    requires IsStar(g) && k in RELAYS && s >= 1 && Reaches(g, steps, n, s, alts)
    requires |alts| <= 3 && forall x :: x in alts ==> x.nextHop != k
    ensures Reaches(g, longer, n', s + 1, if |alts| < 3 then alts + [Via(k)] else [alts[1], alts[2], Via(k)])
  {
    var more;
    more, n' := RunsRound(g, n, k, s, n.hubs[6].tables);
    Onwards(g, Init(g), steps, n, more, n');
    Listed(n.hubs[6].tables, alts, k);
    longer := steps + more;
  }

  lemma TwoRounds(g: NetConfig) returns (steps: seq<Step>, n: Net)
    requires IsStar(g) && g.ids == [1, 2, 3, 4, 5, 6]
    ensures Reaches(g, steps, n, 3, [Via(2)])
  {
    steps, n := FirstRound(g);
    steps, n := AnotherRound(g, steps, n, 2, [], 2);
    assert [] + [Via(2)] == [Via(2)];
  }

  lemma ThreeRounds(g: NetConfig) returns (steps: seq<Step>, n: Net)
    requires IsStar(g) && g.ids == [1, 2, 3, 4, 5, 6]
    ensures Reaches(g, steps, n, 4, [Via(2), Via(3)])
  {
    steps, n := TwoRounds(g);
    steps, n := AnotherRound(g, steps, n, 3, [Via(2)], 3);
    assert [Via(2)] + [Via(3)] == [Via(2), Via(3)];
  }

  lemma FourRounds(g: NetConfig) returns (steps: seq<Step>, n: Net)
    requires IsStar(g) && g.ids == [1, 2, 3, 4, 5, 6]
    ensures Reaches(g, steps, n, 5, [Via(2), Via(3), Via(4)])
  {
    steps, n := ThreeRounds(g);
    steps, n := AnotherRound(g, steps, n, 4, [Via(2), Via(3)], 4);
    assert [Via(2), Via(3)] + [Via(4)] == [Via(2), Via(3), Via(4)];
  }

  lemma FiveRounds(g: NetConfig) returns (steps: seq<Step>, n: Net)
    requires IsStar(g) && g.ids == [1, 2, 3, 4, 5, 6]
    ensures Reaches(g, steps, n, 6, [Via(3), Via(4), Via(1)])
  {
    steps, n := FourRounds(g);
    steps, n := AnotherRound(g, steps, n, 5, [Via(2), Via(3), Via(4)], 1);
  }

  /** Hub 6 hears of hub 5 through each of its four neighbours in turn, and once more through the first, which its
      route goes through: that one is now listed as an alternate to itself, and the second neighbour is
      forgotten. Once the other three go stale, hub 6 has no route, although the second is there all along. */
  lemma FourthNeighbourIsForgotten(g: NetConfig) returns (steps: seq<Step>)
    requires g == Star()
    ensures ConfigWf(g) && ValidRun(g, Init(g), steps) && Undisturbed(steps)
    ensures Link(g, 5, 2) && Link(g, 2, 6) && 6 in Run(g, Init(g), steps).hubs
    ensures var t := Run(g, Init(g), steps).hubs[6].tables;
            && 5 in t.routes && t.routes[5] == Via(1) && AlternatesFor(t.alternates, 5) == [Via(3), Via(4), Via(1)]
            && 5 !in FailoverAll(t, [1, 3, 4]).routes
  {
    StarIsWellFormed(g);
    StarIsStar(g);
    SecondIsThere(g);
    var n;
    steps, n := FiveRounds(g);
    NothingLeft(n.hubs[6].tables);
  }

  lemma SecondIsThere(g: NetConfig)
    requires IsStar(g)
    ensures Link(g, 5, 2) && Link(g, 2, 6)
  {
    var b := g.hub[5].peers[1];
    assert b in g.hub[5].peers && g.listener[b] == 2;
    assert AddressOf(6) in g.hub[2].peers;
  }

  lemma NothingLeft(t: Tables)
    requires Stored(t, [Via(3), Via(4), Via(1)])
    ensures 5 !in FailoverAll(t, [1, 3, 4]).routes
  {
    SweepKeepsExactly(t, [1, 3, 4], 5);
  }
}
