/** Failing over a dead destination can leave two hubs that route to it through each other. */
module OgmLoops {
  import opened Mesh
  import opened Routing
  import opened Registry
  import opened OgmHub
  import opened OgmHubFacts
  import opened OgmNetwork

  // ----- When it happens -----

  predicate PointsTo(t: Tables, d: NodeId, hop: NodeId) {
    d in t.routes && t.routes[d].nextHop == hop
  }

  /** The oldest alternate to d around the stale node goes through this hop; or there is none, and the
      present route goes through it. */
  ghost predicate HeirGoesThrough(t: Tables, stale: NodeId, d: NodeId, hop: NodeId) {
    if AlternatesAllVia(t, stale, d) then PointsTo(t, d, hop) && hop != stale
    else exists k: nat :: OldestAround(t.alternates[d], stale, k) && t.alternates[d][k].nextHop == hop
  }

  lemma HeirInherits(t: Tables, stale: NodeId, d: NodeId, hop: NodeId)
    ensures PointsTo(Failover(t, stale), d, hop) <==> HeirGoesThrough(t, stale, d, hop)
  {
    FailoverExactly(t, stale, d);
    if !AlternatesAllVia(t, stale, d) {
      OldestExists(t.alternates[d], stale);
    }
  }

  /** Two hubs that fail over the same node end up pointing at each other for d exactly when each one's heir
      goes through the other. */
  lemma MutualHopsExactly(a: Tables, b: Tables, idA: NodeId, idB: NodeId, stale: NodeId, d: NodeId)
    ensures PointsTo(Failover(a, stale), d, idB) && PointsTo(Failover(b, stale), d, idA) <==>
            HeirGoesThrough(a, stale, d, idB) && HeirGoesThrough(b, stale, d, idA)
  {
    HeirInherits(a, stale, d, idB);
    HeirInherits(b, stale, d, idA);
  }

  // ----- A run in which it does -----

  /** Hubs 1 and 2 are neighbours, and hub 3 is a neighbour of both. */
  function Pair(): NetConfig {
    NetConfig([1, 2, 3],
              map[1 := HubConfig(1, ["b"], {"b"}, 3, false),
                  2 := HubConfig(2, ["a"], {"a"}, 3, false),
                  3 := HubConfig(3, ["a", "b"], {"a", "b"}, 3, false)],
              map[1 := "a", 2 := "b", 3 := "c"],
              map["a" := 1, "b" := 2, "c" := 3])
  }

  const DIRECT := Route(3, 3, 0.0, 0, 1)
  const VIA_ONE := Route(3, 1, 0.0, 0, 2)
  const VIA_TWO := Route(3, 2, 0.0, 0, 2)

  const FIRST := Ogm(3, 1, 3, true, None, 0)
  const FIRST_RELAYED := Ogm(3, 1, 2, true, Some(1), 1)
  const SECOND := Ogm(3, 2, 3, false, None, 0)
  const SECOND_RELAYED := Ogm(3, 2, 2, false, Some(2), 1)

  lemma PairIsWellFormed(g: NetConfig)
    requires g == Pair()
    ensures ConfigWf(g)
  {
    AddressesDiffer();
    assert g.addrOf.Keys == {1, 2, 3} && g.listener.Keys == {"a", "b", "c"} && g.hub.Keys == {1, 2, 3};
    assert g.listener["a"] == 1 && g.listener["b"] == 2 && g.listener["c"] == 3;
  }

  /** A hub that knows of hub 3 alone, heard at time 0. */
  predicate Knows(h: HubState, seqNo: nat, tables: Tables) {
    && h.filters.lastSeq == map[3 := seqNo] && Count(h.filters.rebroadcasted, 3) <= seqNo && h.tables == tables
    && h.links.linkEQ == map[] && h.links.latencyMs == map[]
    && h.nodes == map[3 := NodeRow(0, 0, Online, None, None)]
  }

  lemma OneHearsDirect(c: HubConfig)
    requires c == HubConfig(1, ["b"], {"b"}, 3, false)
    ensures var o := HandleOgm(c, EMPTY_HUB, FIRST, "c", 0);
            Knows(o.hub, 1, Tables(map[3 := DIRECT], map[])) && o.floods == [Flood(FIRST_RELAYED, Some("c"))]
  {
    NoEchoes(Counted(EMPTY_HUB.links, FIRST, "c"), 3);
    assert Offer(EMPTY_HUB.links, FIRST, "c") == DIRECT;
  }

  lemma TwoHearsRelayed(c: HubConfig)
    requires c == HubConfig(2, ["a"], {"a"}, 3, false)
    ensures var o := HandleOgm(c, EMPTY_HUB, FIRST_RELAYED, "a", 0);
            && Knows(o.hub, 1, Tables(map[3 := VIA_ONE], map[]))
            && o.floods == [Flood(Forwarded(c, FIRST_RELAYED, true), Some("a"))]
  {
    NoEchoes(Counted(EMPTY_HUB.links, FIRST_RELAYED, "a"), 1);
    assert Offer(EMPTY_HUB.links, FIRST_RELAYED, "a") == VIA_ONE;
  }

  lemma TwoHearsDirect(c: HubConfig, h: HubState)
    requires c == HubConfig(2, ["a"], {"a"}, 3, false) && Knows(h, 1, Tables(map[3 := VIA_ONE], map[]))
    ensures var o := HandleOgm(c, h, SECOND, "c", 0);
            && Knows(o.hub, 2, Tables(map[3 := DIRECT], map[3 := [VIA_ONE]]))
            && o.floods == [Flood(SECOND_RELAYED, Some("c"))]
  {
    NoEchoes(Counted(h.links, SECOND, "c"), 3);
    assert Offer(h.links, SECOND, "c") == DIRECT;
    assert Cost(ToMetric(DIRECT)) == 50.0 && Cost(ToMetric(VIA_ONE)) == 60.0;
    assert AddAlternate([], VIA_ONE) == [VIA_ONE];
  }

  lemma OneHearsRelayed(c: HubConfig, h: HubState)
    requires c == HubConfig(1, ["b"], {"b"}, 3, false) && Knows(h, 1, Tables(map[3 := DIRECT], map[]))
    ensures var o := HandleOgm(c, h, SECOND_RELAYED, "b", 0);
            && Knows(o.hub, 2, Tables(map[3 := DIRECT], map[3 := [VIA_TWO]]))
            && o.floods == [Flood(Forwarded(c, SECOND_RELAYED, false), Some("b"))]
  {
    NoEchoes(Counted(h.links, SECOND_RELAYED, "b"), 2);
    assert Offer(h.links, SECOND_RELAYED, "b") == VIA_TWO;
    assert Cost(ToMetric(DIRECT)) == 50.0 && Cost(ToMetric(VIA_TWO)) == 60.0;
    assert AddAlternate([], VIA_TWO) == [VIA_TWO];
  }

  lemma DropsDuplicate(c: HubConfig, h: HubState, m: Ogm, from: Addr, t: Tables)
    requires c.self != 3 && m.nodeId == 3 && Knows(h, m.seqNo, t)
    ensures var o := HandleOgm(c, h, m, from, 0); Knows(o.hub, m.seqNo, t) && o.floods == []
  {
  }

  // ----- What goes over the wire -----

  lemma PostsToBoth(g: NetConfig, m: Ogm)
    requires g == Pair()
    ensures PostFloods(g, 3, [Flood(m, None)]) == [Packet(OgmFrame(m), 3, 1), Packet(OgmFrame(m), 3, 2)]
  {
    AddressesDiffer();
    assert ["a", "b"][1..] == ["b"] && ["b"][1..] == [];
    assert FloodTargets(["b"], {"a", "b"}, None) == ["b"];
    assert FloodTargets(["a", "b"], {"a", "b"}, None) == ["a", "b"];
    assert Post(g, OgmFrame(m), 3, ["b"]) == [Packet(OgmFrame(m), 3, 2)];
    assert [Flood(m, None)][1..] == [];
    assert PostFloods(g, 3, []) == [];
  }

  /** A hub with one peer floods to it, unless the message came from there. */
  lemma PostsToPeer(g: NetConfig, h: NodeId, peer: Addr, m: Ogm, from: Addr)
    requires h in g.hub && g.hub[h].peers == [peer] && g.hub[h].resolvable == {peer} && peer in g.listener
    ensures PostFloods(g, h, [Flood(m, Some(from))]) ==
            if from == peer then [] else [Packet(OgmFrame(m), h, g.listener[peer])]
    ensures PostFloods(g, h, []) == []
  {
    assert [peer][1..] == [];
    assert FloodTargets([], {peer}, Some(from)) == [] && Post(g, OgmFrame(m), h, []) == [];
    assert FloodTargets([peer], {peer}, Some(from)) == if from == peer then [] else [peer];
    assert [Flood(m, Some(from))][1..] == [];
  }

  /** The shape of a delivery in this mesh. */
  lemma Delivers(g: NetConfig, n: Net, i: nat, h: NodeId, o: Outcome, sent: seq<Packet>)
    requires h in g.hub && h in n.hubs && i < |n.wire| && n.wire[i].to == h && n.wire[i].frame.OgmFrame?
    requires n.wire[i].from in g.addrOf && o == HandleOgm(g.hub[h], n.hubs[h], n.wire[i].frame.ogm, g.addrOf[n.wire[i].from], 0)
    requires PostFloods(g, h, o.floods) == sent
    ensures Enabled(g, n, Deliver(i, 0))
    ensures Next(g, n, Deliver(i, 0)) == Net(n.hubs[h := o.hub], Without(n.wire, i) + sent)
  {
  }

  // ----- The run -----

  const SEND_AND_HEAR := [Originate(3, false), Deliver(0, 0)]
  const RELAY_FIRST := [Deliver(1, 0), Deliver(0, 0)]
  const SEND_AND_SWAP := [Originate(3, false), Deliver(1, 0)]

  lemma Originates(g: NetConfig, n: Net, m: Ogm)
    requires g == Pair() && n.hubs.Keys == {1, 2, 3} && n.wire == []
    requires m == Ogm(3, n.hubs[3].seqNo + 1, 3, n.hubs[3].seqNo == 0, None, 0)
    ensures Enabled(g, n, Originate(3, false))
    ensures var n' := Next(g, n, Originate(3, false));
            && n'.wire == [Packet(OgmFrame(m), 3, 1), Packet(OgmFrame(m), 3, 2)] && n'.hubs.Keys == {1, 2, 3}
            && n'.hubs[1] == n.hubs[1] && n'.hubs[2] == n.hubs[2] && n'.hubs[3].seqNo == n.hubs[3].seqNo + 1
  {
    PostsToBoth(g, m);
  }

  lemma OneTakesFirst(g: NetConfig, n: Net) returns (n': Net)
    requires g == Pair() && n.hubs.Keys == {1, 2, 3} && n.hubs[1] == EMPTY_HUB
    requires n.wire == [Packet(OgmFrame(FIRST), 3, 1), Packet(OgmFrame(FIRST), 3, 2)]
    ensures Enabled(g, n, Deliver(0, 0)) && n' == Next(g, n, Deliver(0, 0))
    ensures n'.wire == [Packet(OgmFrame(FIRST), 3, 2), Packet(OgmFrame(FIRST_RELAYED), 1, 2)] && n'.hubs.Keys == {1, 2, 3}
    ensures n'.hubs[2] == n.hubs[2] && n'.hubs[3] == n.hubs[3] && Knows(n'.hubs[1], 1, Tables(map[3 := DIRECT], map[]))
  {
    AddressesDiffer();
    OneHearsDirect(g.hub[1]);
    PostsToPeer(g, 1, "b", FIRST_RELAYED, "c");
    Delivers(g, n, 0, 1, HandleOgm(g.hub[1], EMPTY_HUB, FIRST, "c", 0), [Packet(OgmFrame(FIRST_RELAYED), 1, 2)]);
    n' := Next(g, n, Deliver(0, 0));
  }

  lemma FirstGoesOut(g: NetConfig) returns (n: Net)
    requires g == Pair()
    ensures ValidRun(g, Init(g), SEND_AND_HEAR) && n == Run(g, Init(g), SEND_AND_HEAR)
    ensures n.wire == [Packet(OgmFrame(FIRST), 3, 2), Packet(OgmFrame(FIRST_RELAYED), 1, 2)]
    ensures n.hubs.Keys == {1, 2, 3} && n.hubs[3].seqNo == 1 && n.hubs[2] == EMPTY_HUB
    ensures Knows(n.hubs[1], 1, Tables(map[3 := DIRECT], map[]))
  {
    Originates(g, Init(g), FIRST);
    n := OneTakesFirst(g, Next(g, Init(g), Originate(3, false)));
    RunTwo(g, Init(g), Originate(3, false), Deliver(0, 0));
  }

  /** The direct copy comes last and is dropped. */
  lemma DirectIsDropped(g: NetConfig, n: Net, h: NodeId, m: Ogm, t: Tables)
    requires h in g.hub && g.hub[h].self != 3 && 3 in g.addrOf && h in n.hubs
    requires n.wire == [Packet(OgmFrame(m), 3, h)] && m.nodeId == 3 && Knows(n.hubs[h], m.seqNo, t)
    ensures Enabled(g, n, Deliver(0, 0))
    ensures var n' := Next(g, n, Deliver(0, 0));
            && n'.wire == [] && h in n'.hubs && n'.hubs == n.hubs[h := n'.hubs[h]] && Knows(n'.hubs[h], m.seqNo, t)
  {
    DropsDuplicate(g.hub[h], n.hubs[h], m, g.addrOf[3], t);
    assert PostFloods(g, h, []) == [];
  }

  lemma FirstIsRelayed(g: NetConfig, n: Net) returns (n': Net)
    requires g == Pair() && n.hubs.Keys == {1, 2, 3} && n.hubs[2] == EMPTY_HUB
    requires n.wire == [Packet(OgmFrame(FIRST), 3, 2), Packet(OgmFrame(FIRST_RELAYED), 1, 2)]
    ensures Enabled(g, n, Deliver(1, 0)) && n' == Next(g, n, Deliver(1, 0))
    ensures n'.wire == [Packet(OgmFrame(FIRST), 3, 2)] && n'.hubs.Keys == {1, 2, 3}
    ensures n'.hubs[1] == n.hubs[1] && n'.hubs[3] == n.hubs[3] && Knows(n'.hubs[2], 1, Tables(map[3 := VIA_ONE], map[]))
  {
    TwoHearsRelayed(g.hub[2]);
    PostsToPeer(g, 2, "a", Forwarded(g.hub[2], FIRST_RELAYED, true), "a");
    Delivers(g, n, 1, 2, HandleOgm(g.hub[2], EMPTY_HUB, FIRST_RELAYED, "a", 0), []);
    n' := Next(g, n, Deliver(1, 0));
  }

  lemma FirstArrives(g: NetConfig, n: Net) returns (n': Net)
    requires g == Pair() && n.hubs.Keys == {1, 2, 3} && n.hubs[2] == EMPTY_HUB
    requires n.wire == [Packet(OgmFrame(FIRST), 3, 2), Packet(OgmFrame(FIRST_RELAYED), 1, 2)]
    ensures ValidRun(g, n, RELAY_FIRST) && n' == Run(g, n, RELAY_FIRST) && n'.wire == [] && n'.hubs.Keys == {1, 2, 3}
    ensures n'.hubs[1] == n.hubs[1] && n'.hubs[3] == n.hubs[3] && Knows(n'.hubs[2], 1, Tables(map[3 := VIA_ONE], map[]))
  {
    var n1 := FirstIsRelayed(g, n);
    DirectIsDropped(g, n1, 2, FIRST, Tables(map[3 := VIA_ONE], map[]));
    RunTwo(g, n, Deliver(1, 0), Deliver(0, 0));
    n' := Next(g, n1, Deliver(0, 0));
  }

  lemma SecondGoesOut(g: NetConfig, n: Net) returns (n': Net)
    requires g == Pair() && n.hubs.Keys == {1, 2, 3} && n.wire == [] && n.hubs[3].seqNo == 1
    requires Knows(n.hubs[2], 1, Tables(map[3 := VIA_ONE], map[]))
    ensures ValidRun(g, n, SEND_AND_SWAP) && n' == Run(g, n, SEND_AND_SWAP) && n'.hubs.Keys == {1, 2, 3}
    ensures n'.wire == [Packet(OgmFrame(SECOND), 3, 1), Packet(OgmFrame(SECOND_RELAYED), 2, 1)]
    ensures n'.hubs[1] == n.hubs[1] && Knows(n'.hubs[2], 2, Tables(map[3 := DIRECT], map[3 := [VIA_ONE]]))
  {
    AddressesDiffer();
    Originates(g, n, SECOND);
    var n1 := Next(g, n, Originate(3, false));
    TwoHearsDirect(g.hub[2], n.hubs[2]);
    PostsToPeer(g, 2, "a", SECOND_RELAYED, "c");
    Delivers(g, n1, 1, 2, HandleOgm(g.hub[2], n.hubs[2], SECOND, "c", 0), [Packet(OgmFrame(SECOND_RELAYED), 2, 1)]);
    RunTwo(g, n, Originate(3, false), Deliver(1, 0));
    n' := Next(g, n1, Deliver(1, 0));
  }

  lemma SecondIsRelayed(g: NetConfig, n: Net) returns (n': Net)
    requires g == Pair() && n.hubs.Keys == {1, 2, 3} && Knows(n.hubs[1], 1, Tables(map[3 := DIRECT], map[]))
    requires n.wire == [Packet(OgmFrame(SECOND), 3, 1), Packet(OgmFrame(SECOND_RELAYED), 2, 1)]
    ensures Enabled(g, n, Deliver(1, 0)) && n' == Next(g, n, Deliver(1, 0))
    ensures n'.wire == [Packet(OgmFrame(SECOND), 3, 1)] && n'.hubs.Keys == {1, 2, 3}
    ensures n'.hubs[2] == n.hubs[2] && Knows(n'.hubs[1], 2, Tables(map[3 := DIRECT], map[3 := [VIA_TWO]]))
  {
    OneHearsRelayed(g.hub[1], n.hubs[1]);
    PostsToPeer(g, 1, "b", Forwarded(g.hub[1], SECOND_RELAYED, false), "b");
    Delivers(g, n, 1, 1, HandleOgm(g.hub[1], n.hubs[1], SECOND_RELAYED, "b", 0), []);
    n' := Next(g, n, Deliver(1, 0));
  }

  lemma SecondArrives(g: NetConfig, n: Net) returns (n': Net)
    requires g == Pair() && n.hubs.Keys == {1, 2, 3} && Knows(n.hubs[1], 1, Tables(map[3 := DIRECT], map[]))
    requires n.wire == [Packet(OgmFrame(SECOND), 3, 1), Packet(OgmFrame(SECOND_RELAYED), 2, 1)]
    ensures ValidRun(g, n, RELAY_FIRST) && n' == Run(g, n, RELAY_FIRST) && n'.wire == [] && n'.hubs.Keys == {1, 2, 3}
    ensures n'.hubs[2] == n.hubs[2] && Knows(n'.hubs[1], 2, Tables(map[3 := DIRECT], map[3 := [VIA_TWO]]))
  {
    var n1 := SecondIsRelayed(g, n);
    DirectIsDropped(g, n1, 1, SECOND, Tables(map[3 := DIRECT], map[3 := [VIA_TWO]]));
    RunTwo(g, n, Deliver(1, 0), Deliver(0, 0));
    n' := Next(g, n1, Deliver(0, 0));
  }

  lemma BothKnow(g: NetConfig) returns (steps: seq<Step>, n: Net)
    requires g == Pair()
    ensures ValidRun(g, Init(g), steps) && n == Run(g, Init(g), steps) && n.wire == [] && n.hubs.Keys == {1, 2, 3}
    ensures Knows(n.hubs[1], 2, Tables(map[3 := DIRECT], map[3 := [VIA_TWO]]))
    ensures Knows(n.hubs[2], 2, Tables(map[3 := DIRECT], map[3 := [VIA_ONE]]))
  {
    var n1 := FirstGoesOut(g);
    var n2 := FirstArrives(g, n1);
    var n3 := SecondGoesOut(g, n2);
    n := SecondArrives(g, n3);
    RunConcat(g, n2, SEND_AND_SWAP, RELAY_FIRST);
    RunConcat(g, n1, RELAY_FIRST, SEND_AND_SWAP + RELAY_FIRST);
    RunConcat(g, Init(g), SEND_AND_HEAR, RELAY_FIRST + (SEND_AND_SWAP + RELAY_FIRST));
    steps := SEND_AND_HEAR + (RELAY_FIRST + (SEND_AND_SWAP + RELAY_FIRST));
  }

  /** Nothing is lost; each hub hears hub 3 directly and, once, through the other. Hub 3 dies, both hubs find
      exactly it stale and fail it over: each now routes to hub 3 through the other. */
  lemma DeadHubLoops(g: NetConfig) returns (steps: seq<Step>, n: Net)
    requires g == Pair()
    ensures ConfigWf(g) && ValidRun(g, Init(g), steps) && n == Run(g, Init(g), steps) && n.hubs.Keys == {1, 2, 3}
    ensures StaleBefore(n.hubs[1].nodes, 50) == StaleBefore(n.hubs[2].nodes, 50) == {3}
    ensures ValidRun(g, n, [StaleFailover(1, 3), StaleFailover(2, 3)])
    ensures var n' := Run(g, n, [StaleFailover(1, 3), StaleFailover(2, 3)]);
            1 in n'.hubs && 2 in n'.hubs && PointsTo(n'.hubs[1].tables, 3, 2) && PointsTo(n'.hubs[2].tables, 3, 1)
  {
    PairIsWellFormed(g);
    steps, n := BothKnow(g);
    BothFailOver(g, n);
  }

  lemma BothFailOver(g: NetConfig, n: Net)
    requires 1 in n.hubs && n.hubs[1].tables == Tables(map[3 := DIRECT], map[3 := [VIA_TWO]])
    requires 2 in n.hubs && n.hubs[2].tables == Tables(map[3 := DIRECT], map[3 := [VIA_ONE]])
    ensures ValidRun(g, n, [StaleFailover(1, 3), StaleFailover(2, 3)])
    ensures var n' := Run(g, n, [StaleFailover(1, 3), StaleFailover(2, 3)]);
            1 in n'.hubs && 2 in n'.hubs && PointsTo(n'.hubs[1].tables, 3, 2) && PointsTo(n'.hubs[2].tables, 3, 1)
  {
    RunTwo(g, n, StaleFailover(1, 3), StaleFailover(2, 3));
    HeirsAreMutual(n.hubs[1].tables, n.hubs[2].tables);
  }

  lemma HeirsAreMutual(a: Tables, b: Tables)
    requires a == Tables(map[3 := DIRECT], map[3 := [VIA_TWO]]) && b == Tables(map[3 := DIRECT], map[3 := [VIA_ONE]])
    ensures PointsTo(Failover(a, 3), 3, 2) && PointsTo(Failover(b, 3), 3, 1)
  {
    assert [VIA_TWO][1..] == [] && [VIA_ONE][1..] == [] && Surviving([], 3) == [];
    assert Surviving([VIA_TWO], 3) == [VIA_TWO] && Surviving([VIA_ONE], 3) == [VIA_ONE];
    MutualHopsExactly(a, b, 1, 2, 3, 3);
  }
}
