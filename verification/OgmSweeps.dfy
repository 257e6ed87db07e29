/** A stale sweep that loses a healthy route, as a run of the network from the start. */
module OgmSweeps {
  import opened Mesh
  import opened Routing
  import opened Registry
  import opened OgmHub
  import opened OgmHubFacts
  import opened OgmNetwork

  /** Hub 2 is a neighbour of hub 1, and also reaches it through hub 3. */
  function Triangle(): NetConfig {
    NetConfig([1, 2, 3],
              map[1 := HubConfig(1, [], {}, 4, false),
                  2 := HubConfig(2, ["a", "c"], {"a", "c"}, 4, false),
                  3 := HubConfig(3, ["a"], {"a"}, 4, false)],
              map[1 := "a", 2 := "b", 3 := "c"],
              map["a" := 1, "b" := 2, "c" := 3])
  }

  const DIRECT := Route(2, 2, 0.0, 0, 1)
  const RELAYED := Route(2, 3, 0.0, 0, 2)

  const FIRST := Ogm(2, 1, 4, true, None, 0)
  const SECOND := Ogm(2, 2, 4, false, None, 0)
  const FORWARDED := Ogm(2, 2, 3, false, Some(3), 1)

  lemma TriangleIsWellFormed(g: NetConfig)
    requires g == Triangle()
    ensures ConfigWf(g)
  {
    AddressesDiffer();
    assert g.addrOf.Keys == {1, 2, 3} && g.listener.Keys == {"a", "b", "c"} && g.hub.Keys == {1, 2, 3};
    assert g.listener["a"] == 1 && g.listener["b"] == 2 && g.listener["c"] == 3;
  }

  // ----- What each hub does -----

  /** Hub 1 as far as this run needs to know it. */
  predicate Knows(h: HubState, seqNo: nat, tables: Tables) {
    && h.filters.lastSeq == map[2 := seqNo] && h.tables == tables
    && h.links.linkEQ == map[] && h.links.latencyMs == map[]
    && h.nodes == map[2 := NodeRow(100, 100, Online, None, None)]
  }

  lemma HearDirect(c: HubConfig)
    requires c == HubConfig(1, [], {}, 4, false)
    ensures Knows(HandleOgm(c, EMPTY_HUB, FIRST, "b", 100).hub, 1, Tables(map[2 := DIRECT], map[]))
  {
    var offer := Offer(EMPTY_HUB.links, FIRST, "b");
    NoEchoes(Counted(EMPTY_HUB.links, FIRST, "b"), 2);
    assert offer == DIRECT;
  }

  lemma HearRelayed(c: HubConfig, h: HubState)
    requires c == HubConfig(1, [], {}, 4, false) && Knows(h, 1, Tables(map[2 := DIRECT], map[]))
    ensures Knows(HandleOgm(c, h, FORWARDED, "c", 100).hub, 2, Tables(map[2 := DIRECT], map[2 := [RELAYED]]))
  {
    var offer := Offer(h.links, FORWARDED, "c");
    NoEchoes(Counted(h.links, FORWARDED, "c"), 3);
    assert offer == RELAYED;
    assert Cost(ToMetric(DIRECT)) == 50.0 && Cost(ToMetric(RELAYED)) == 60.0;
    assert AddAlternate([], RELAYED) == [RELAYED];
  }

  lemma Relay(c: HubConfig)
    requires c == HubConfig(3, ["a"], {"a"}, 4, false)
    ensures HandleOgm(c, EMPTY_HUB, SECOND, "b", 100).floods == [Flood(FORWARDED, Some("b"))]
  {
  }

  // ----- What goes over the wire -----

  lemma PostToBoth(g: NetConfig, m: Ogm)
    requires g == Triangle()
    ensures PostFloods(g, 2, [Flood(m, None)]) == [Packet(OgmFrame(m), 2, 1), Packet(OgmFrame(m), 2, 3)]
  {
    AddressesDiffer();
    assert ["a", "c"][1..] == ["c"] && ["c"][1..] == [];
    assert FloodTargets(["c"], {"a", "c"}, None) == ["c"];
    assert FloodTargets(["a", "c"], {"a", "c"}, None) == ["a", "c"];
    assert Post(g, OgmFrame(m), 2, ["c"]) == [Packet(OgmFrame(m), 2, 3)];
    assert [Flood(m, None)][1..] == [];
    assert PostFloods(g, 2, []) == [];
  }

  lemma PostToOne(g: NetConfig, m: Ogm)
    requires g == Triangle()
    ensures PostFloods(g, 3, [Flood(m, Some("b"))]) == [Packet(OgmFrame(m), 3, 1)]
  {
    AddressesDiffer();
    assert ["a"][1..] == [];
    assert FloodTargets(["a"], {"a"}, Some("b")) == ["a"];
    assert Post(g, OgmFrame(m), 3, []) == [];
    assert [Flood(m, Some("b"))][1..] == [];
    assert PostFloods(g, 3, []) == [];
  }

  lemma {:induction false} PostNowhere(g: NetConfig, floods: seq<Flood>)
    requires g == Triangle()
    ensures PostFloods(g, 1, floods) == []
  {
    if floods != [] {
      assert PostFlood(g, 1, floods[0]) == [];
      PostNowhere(g, floods[1..]);
    }
  }

  // ----- The run -----

  const HEAR_DIRECT := [Originate(2, false), Deliver(0, 100), Lose(0)]
  const LOSE_DIRECT := [Originate(2, false), Lose(0)]
  const HEAR_RELAYED := [Deliver(0, 100), Deliver(0, 100)]

  lemma OriginateBoth(g: NetConfig, n: Net, m: Ogm)
    requires g == Triangle() && n.hubs.Keys == {1, 2, 3} && n.wire == []
    requires m == Ogm(2, n.hubs[2].seqNo + 1, 4, n.hubs[2].seqNo == 0, None, 0)
    ensures Enabled(g, n, Originate(2, false))
    ensures var n' := Next(g, n, Originate(2, false));
            && n'.wire == [Packet(OgmFrame(m), 2, 1), Packet(OgmFrame(m), 2, 3)] && n'.hubs.Keys == {1, 2, 3}
            && n'.hubs[1] == n.hubs[1] && n'.hubs[3] == n.hubs[3] && n'.hubs[2].seqNo == n.hubs[2].seqNo + 1
  {
    PostToBoth(g, m);
  }

  lemma DeliverToOne(g: NetConfig, n: Net, f: Packet, rest: seq<Packet>)
    requires g == Triangle() && n.hubs.Keys == {1, 2, 3} && n.wire == [f] + rest
    requires f.frame.OgmFrame? && f.to == 1 && f.from in {2, 3}
    ensures Enabled(g, n, Deliver(0, 100))
    ensures var n' := Next(g, n, Deliver(0, 100));
            && n'.wire == rest && n'.hubs.Keys == {1, 2, 3}
            && n'.hubs[1] == HandleOgm(g.hub[1], n.hubs[1], f.frame.ogm, g.addrOf[f.from], 100).hub
            && n'.hubs[2] == n.hubs[2] && n'.hubs[3] == n.hubs[3]
  {
    PostNowhere(g, Received(g, n, 0, 100).floods);
  }

  lemma HearsDirect(g: NetConfig) returns (n: Net)
    requires g == Triangle()
    ensures ValidRun(g, Init(g), HEAR_DIRECT) && n == Run(g, Init(g), HEAR_DIRECT)
    ensures n.wire == [] && n.hubs.Keys == {1, 2, 3} && n.hubs[2].seqNo == 1 && n.hubs[3] == EMPTY_HUB
    ensures Knows(n.hubs[1], 1, Tables(map[2 := DIRECT], map[]))
  {
    var n0 := Init(g);
    OriginateBoth(g, n0, FIRST);
    var n1 := Next(g, n0, Originate(2, false));
    assert n1.wire == [n1.wire[0]] + [Packet(OgmFrame(FIRST), 2, 3)];
    DeliverToOne(g, n1, n1.wire[0], [Packet(OgmFrame(FIRST), 2, 3)]);
    HearDirect(g.hub[1]);
    var n2 := Next(g, n1, Deliver(0, 100));
    n := Next(g, n2, Lose(0));
    RunThree(g, n0, Originate(2, false), Deliver(0, 100), Lose(0));
  }

  lemma RelayForwards(g: NetConfig, n: Net)
    requires g == Triangle() && n.hubs.Keys == {1, 2, 3} && n.wire == [Packet(OgmFrame(SECOND), 2, 3)]
    requires n.hubs[3] == EMPTY_HUB
    ensures Enabled(g, n, Deliver(0, 100))
    ensures var n' := Next(g, n, Deliver(0, 100));
            n'.wire == [Packet(OgmFrame(FORWARDED), 3, 1)] && n'.hubs.Keys == {1, 2, 3} && n'.hubs[1] == n.hubs[1]
  {
    Relay(g.hub[3]);
    PostToOne(g, FORWARDED);
  }

  lemma LosesDirect(g: NetConfig, n: Net) returns (n': Net)
    requires g == Triangle() && n.hubs.Keys == {1, 2, 3} && n.wire == [] && n.hubs[2].seqNo == 1
    ensures ValidRun(g, n, LOSE_DIRECT) && n' == Run(g, n, LOSE_DIRECT)
    ensures n'.hubs.Keys == {1, 2, 3} && n'.wire == [Packet(OgmFrame(SECOND), 2, 3)]
    ensures n'.hubs[1] == n.hubs[1] && n'.hubs[3] == n.hubs[3]
  {
    OriginateBoth(g, n, SECOND);
    RunTwo(g, n, Originate(2, false), Lose(0));
    n' := Next(g, Next(g, n, Originate(2, false)), Lose(0));
  }

  lemma HearsRelayed(g: NetConfig, n: Net) returns (n': Net)
    requires g == Triangle() && n.hubs.Keys == {1, 2, 3} && n.wire == [Packet(OgmFrame(SECOND), 2, 3)]
    requires n.hubs[3] == EMPTY_HUB && Knows(n.hubs[1], 1, Tables(map[2 := DIRECT], map[]))
    ensures ValidRun(g, n, HEAR_RELAYED) && n' == Run(g, n, HEAR_RELAYED)
    ensures n'.hubs.Keys == {1, 2, 3} && Knows(n'.hubs[1], 2, Tables(map[2 := DIRECT], map[2 := [RELAYED]]))
  {
    RelayForwards(g, n);
    var n1 := Next(g, n, Deliver(0, 100));
    DeliverToOne(g, n1, n1.wire[0], []);
    HearRelayed(g.hub[1], n1.hubs[1]);
    RunTwo(g, n, Deliver(0, 100), Deliver(0, 100));
    n' := Next(g, n1, Deliver(0, 100));
  }

  // ----- The sweep -----

  const QUIET := NodeRow(0, 0, Online, None, None)

  /** Gossip tells hub 1 of two nodes that were last seen long ago: x and hub 3. */
  function Told(nodes: NodeTable, x: NodeId): NodeTable {
    MergedNode(MergedNode(nodes, x, QUIET), 3, QUIET)
  }

  /** A sweep that finds the listed nodes stale: they are marked, then failed over one after the other. */
  function FullSweep(h: NodeId, nodes: NodeTable, cutoff: int, stale: seq<NodeId>): seq<Step> {
    [WriteNodes(h, MarkedStale(nodes, cutoff))] + SweepSteps(h, stale)
  }

  lemma QuietAreStale(nodes: NodeTable, x: NodeId)
    requires nodes == map[2 := NodeRow(100, 100, Online, None, None)] && x !in {2, 3}
    ensures StaleBefore(Told(nodes, x), 50) == {x, 3} && IsOnline(MarkedStale(Told(nodes, x), 50), 2)
  {
  }

  lemma SweepLoses(t: Tables, x: NodeId)
    requires t == Tables(map[2 := DIRECT], map[2 := [RELAYED]]) && x !in {2, 3}
    ensures 2 !in FailoverAll(t, [x, 3]).routes
  {
    assert RELAYED in t.alternates[2];
    SweepKeepsExactly(t, [x, 3], 2);
  }

  lemma FullSweepRuns(g: NetConfig, n: Net, h: NodeId, cutoff: int, stale: seq<NodeId>)
    requires h in n.hubs
    ensures var steps := FullSweep(h, n.hubs[h].nodes, cutoff, stale);
            && ValidRun(g, n, steps) && h in Run(g, n, steps).hubs
            && Run(g, n, steps).hubs[h].tables == FailoverAll(n.hubs[h].tables, stale)
            && Run(g, n, steps).hubs[h].nodes == MarkedStale(n.hubs[h].nodes, cutoff)
  {
    var mark := WriteNodes(h, MarkedStale(n.hubs[h].nodes, cutoff));
    RunOne(g, n, mark);
    SweepIsARun(g, Next(g, n, mark), h, stale);
    RunConcat(g, n, [mark], SweepSteps(h, stale));
  }

  lemma HearsBoth(g: NetConfig) returns (steps: seq<Step>, n: Net)
    requires g == Triangle()
    ensures ValidRun(g, Init(g), steps) && n == Run(g, Init(g), steps) && 1 in n.hubs
    ensures Knows(n.hubs[1], 2, Tables(map[2 := DIRECT], map[2 := [RELAYED]]))
  {
    var n1 := HearsDirect(g);
    var n2 := LosesDirect(g, n1);
    n := HearsRelayed(g, n2);
    RunConcat(g, n1, LOSE_DIRECT, HEAR_RELAYED);
    RunConcat(g, Init(g), HEAR_DIRECT, LOSE_DIRECT + HEAR_RELAYED);
    steps := HEAR_DIRECT + (LOSE_DIRECT + HEAR_RELAYED);
  }

  lemma HearsAll(g: NetConfig, x: NodeId) returns (steps: seq<Step>, n: Net)
    requires g == Triangle()
    ensures ValidRun(g, Init(g), steps) && n == Run(g, Init(g), steps) && 1 in n.hubs
    ensures n.hubs[1].tables == Tables(map[2 := DIRECT], map[2 := [RELAYED]])
    ensures n.hubs[1].nodes == Told(map[2 := NodeRow(100, 100, Online, None, None)], x)
  {
    var heard, n1 := HearsBoth(g);
    var gossip := WriteNodes(1, Told(n1.hubs[1].nodes, x));
    RunOne(g, n1, gossip);
    RunConcat(g, Init(g), heard, [gossip]);
    steps, n := heard + [gossip], Next(g, n1, gossip);
  }

  /** Hub 1 routes to its live neighbour 2 directly and keeps a detour through hub 3 as the alternate. Some
      other node x and hub 3 have fallen silent, and exactly these two the sweep finds stale; x comes first.
      Failing over x puts the detour in place of the direct route, failing over hub 3 deletes it: no route
      to a live neighbour is left. */
  lemma HealthyRouteLost(g: NetConfig, x: NodeId) returns (steps: seq<Step>)
    requires g == Triangle() && x !in {2, 3}
    ensures ConfigWf(g) && ValidRun(g, Init(g), steps) && 1 in Run(g, Init(g), steps).hubs
    ensures var n := Run(g, Init(g), steps);
            && n.hubs[1].tables == Tables(map[2 := DIRECT], map[2 := [RELAYED]])
            && StaleBefore(n.hubs[1].nodes, 50) == {x, 3}
            && var sweep := FullSweep(1, n.hubs[1].nodes, 50, [x, 3]);
               && ValidRun(g, n, sweep) && 1 in Run(g, n, sweep).hubs
               && 2 !in Run(g, n, sweep).hubs[1].tables.routes && IsOnline(Run(g, n, sweep).hubs[1].nodes, 2)
  {
    TriangleIsWellFormed(g);
    var n: Net;
    steps, n := HearsAll(g, x);
    QuietAreStale(map[2 := NodeRow(100, 100, Online, None, None)], x);
    FullSweepRuns(g, n, 1, 50, [x, 3]);
    SweepLoses(n.hubs[1].tables, x);
  }
}
