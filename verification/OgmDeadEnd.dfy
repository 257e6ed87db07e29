/** A hub two links away that a flood misses, with nothing lost and nobody pinging. */
module OgmDeadEnd {
  import opened Mesh
  import opened OgmHub
  import opened OgmNetwork
  import opened OgmPaths
  import opened OgmConvergence
  import opened OgmTtl

  // ----- Runs without loss and Hellos -----

  lemma {:induction false} NothingLost(g: NetConfig, n: Net, steps: seq<Step>, o: NodeId)
    requires ValidRun(g, n, steps) && forall s :: s in steps ==> !s.Lose?
    ensures Lost(g, n, steps, o) == {}
    decreases |steps|
  {
    if steps != [] {
      assert steps[0] in steps;
      NothingLost(g, Next(g, n, steps[0]), steps[1..], o);
    }
  }

  ghost predicate OnlyOgms(n: Net) {
    forall p :: p in n.wire ==> p.frame.OgmFrame?
  }

  lemma NextOnlyOgms(g: NetConfig, n: Net, s: Step)
    requires OnlyOgms(n) && Enabled(g, n, s) && !s.SendHello?
    ensures OnlyOgms(Next(g, n, s))
  {
    forall p | p in Next(g, n, s).wire ensures p.frame.OgmFrame? {
      if p !in n.wire {
        var (actor, floods) := FloodsIn(g, n, s);
        PostFloodsAre(g, actor, floods, p);
      }
    }
  }

  lemma {:induction false} NoHellos(g: NetConfig, n: Net, steps: seq<Step>, o: NodeId)
    requires ValidRun(g, n, steps) && OnlyOgms(n) && forall s :: s in steps ==> !s.SendHello?
    ensures Hellos(g, n, steps, o) == {}
    decreases |steps|
  {
    if steps != [] {
      assert steps[0] in steps;
      NextOnlyOgms(g, n, steps[0]);
      NoHellos(g, Next(g, n, steps[0]), steps[1..], o);
    }
  }

  // ----- The mesh -----

  /** Hub 1 links to 2 and 3, hub 3 to 2, and hub 2 to 4; every TTL is 1. */
  function Kite(): NetConfig {
    NetConfig([1, 2, 3, 4],
              map[1 := HubConfig(1, ["b", "c"], {"b", "c"}, 1, false),
                  2 := HubConfig(2, ["d"], {"d"}, 1, false),
                  3 := HubConfig(3, ["b"], {"b"}, 1, false),
                  4 := HubConfig(4, [], {}, 1, false)],
              map[1 := "a", 2 := "b", 3 := "c", 4 := "d"],
              map["a" := 1, "b" := 2, "c" := 3, "d" := 4])
  }

  lemma KiteListeners(g: NetConfig)
    requires g == Kite()
    ensures g.listener.Keys == {"a", "b", "c", "d"}
    ensures g.listener["a"] == 1 && g.listener["b"] == 2 && g.listener["c"] == 3 && g.listener["d"] == 4
  {
    AddressesDiffer();
  }

  lemma KiteIsAddressed(g: NetConfig)
    requires g == Kite()
    ensures Addressed(g) && forall a :: a in g.listener ==> g.listener[a] in g.ids
  {
    KiteListeners(g);
    assert g.addrOf.Keys == {1, 2, 3, 4};
  }

  lemma KiteHubs(g: NetConfig)
    requires g == Kite()
    ensures g.ids == [1, 2, 3, 4] && g.hub.Keys == g.addrOf.Keys == {1, 2, 3, 4}
    ensures forall id :: id in {1, 2, 3, 4} ==> g.hub[id].self == id && g.hub[id].ttl == 1
  {
  }

  lemma KiteIsWellFormed(g: NetConfig)
    requires g == Kite()
    ensures ConfigWf(g) && Addressed(g)
  {
    KiteIsAddressed(g);
    KiteHubs(g);
    FourIds(g.ids);
  }

  lemma FourIds(ids: seq<NodeId>)
    requires ids == [1, 2, 3, 4]
    ensures Distinct(ids) && forall id :: id in ids <==> id in {1, 2, 3, 4}
  {
  }

  lemma KiteLinks(g: NetConfig)
    requires g == Kite()
    ensures Link(g, 1, 2) && Link(g, 2, 4)
  {
    KiteListeners(g);
    assert "b" in g.hub[1].peers && "d" in g.hub[2].peers;
  }

  lemma TwoLinksAway(g: NetConfig)
    requires Link(g, 1, 2) && Link(g, 2, 4) && g.ids == [1, 2, 3, 4] && 1 in g.hub && g.hub[1].ttl == 1
    ensures Chain(g, 1, [1, 2, 4]) && WithinReach(g, 1, 4)
  {
    assert IsPath(g, [1, 2, 4]) && Last([1, 2, 4]) == 4;
  }

  /** Hub 4 is within the reach of hub 1's TTL. */
  lemma FourIsNear(g: NetConfig)
    requires g == Kite()
    ensures Chain(g, 1, [1, 2, 4]) && WithinReach(g, 1, 4)
  {
    KiteHubs(g);
    KiteLinks(g);
    TwoLinksAway(g);
  }

  // ----- The run -----

  const SENT := Ogm(1, 1, 1, true, None, 0)
  const RELAYED := Ogm(1, 1, 0, true, Some(3), 1)
  const ALONG_THE_DETOUR := [Originate(1, false), Deliver(1, 0)]
  const INTO_HUB_TWO := [Deliver(1, 0), Deliver(0, 0)]
  const DETOUR_FIRST := ALONG_THE_DETOUR + INTO_HUB_TWO

  lemma PostToTwo(g: NetConfig)
    requires g == Kite()
    ensures PostFloods(g, 1, [Flood(SENT, None)]) == [Packet(OgmFrame(SENT), 1, 2), Packet(OgmFrame(SENT), 1, 3)]
    ensures PostFloods(g, 3, [Flood(RELAYED, Some("a"))]) == [Packet(OgmFrame(RELAYED), 3, 2)]
    ensures PostFloods(g, 2, []) == []
  {
    AddressesDiffer();
    assert ["b", "c"][1..] == ["c"] && ["c"][1..] == [] && ["b"][1..] == [];
    assert FloodTargets(["c"], {"b", "c"}, None) == ["c"];
    assert FloodTargets(["b", "c"], {"b", "c"}, None) == ["b", "c"];
    assert FloodTargets(["b"], {"b"}, Some("a")) == ["b"];
    assert Post(g, OgmFrame(SENT), 1, ["c"]) == [Packet(OgmFrame(SENT), 1, 3)];
    assert Post(g, OgmFrame(RELAYED), 3, []) == [];
    assert [Flood(SENT, None)][1..] == [] && [Flood(RELAYED, Some("a"))][1..] == [];
    assert PostFloods(g, 1, []) == [] && PostFloods(g, 3, []) == [];
  }

  lemma HubThreeRelays(c: HubConfig)
    requires c == HubConfig(3, ["b"], {"b"}, 1, false)
    ensures HandleOgm(c, EMPTY_HUB, SENT, "a", 0).floods == [Flood(RELAYED, Some("a"))]
  {
  }

  lemma HubTwoStops(c: HubConfig, from: Addr)
    requires c == HubConfig(2, ["d"], {"d"}, 1, false)
    ensures var h := HandleOgm(c, EMPTY_HUB, RELAYED, "c", 0);
            h.floods == [] && h.hub.filters.lastSeq == map[1 := 1] && HandleOgm(c, h.hub, SENT, from, 0).floods == []
  {
  }

  lemma KiteSends(g: NetConfig) returns (n: Net)
    requires g == Kite()
    ensures Enabled(g, Init(g), Originate(1, false)) && n == Next(g, Init(g), Originate(1, false))
    ensures n.wire == [Packet(OgmFrame(SENT), 1, 2), Packet(OgmFrame(SENT), 1, 3)] && n.hubs.Keys == {1, 2, 3, 4}
    ensures n.hubs[1].seqNo == 1 && n.hubs[2] == n.hubs[3] == n.hubs[4] == EMPTY_HUB
  {
    PostToTwo(g);
    n := Next(g, Init(g), Originate(1, false));
  }

  lemma ThreeRelays(g: NetConfig, n: Net) returns (n': Net)
    requires g == Kite() && n.hubs.Keys == {1, 2, 3, 4} && n.hubs[3] == EMPTY_HUB
    requires n.wire == [Packet(OgmFrame(SENT), 1, 2), Packet(OgmFrame(SENT), 1, 3)]
    ensures Enabled(g, n, Deliver(1, 0)) && n' == Next(g, n, Deliver(1, 0)) && n'.hubs.Keys == {1, 2, 3, 4}
    ensures n'.hubs[1] == n.hubs[1] && n'.hubs[2] == n.hubs[2] && n'.hubs[4] == n.hubs[4]
    ensures n'.wire == [Packet(OgmFrame(SENT), 1, 2), Packet(OgmFrame(RELAYED), 3, 2)]
  {
    PostToTwo(g);
    HubThreeRelays(g.hub[3]);
    n' := Next(g, n, Deliver(1, 0));
  }

  lemma DetourArrives(g: NetConfig) returns (n: Net)
    requires g == Kite()
    ensures ValidRun(g, Init(g), ALONG_THE_DETOUR) && n == Run(g, Init(g), ALONG_THE_DETOUR) && n.hubs.Keys == {1, 2, 3, 4}
    ensures n.hubs[1].seqNo == 1 && n.hubs[2] == n.hubs[4] == EMPTY_HUB
    ensures n.wire == [Packet(OgmFrame(SENT), 1, 2), Packet(OgmFrame(RELAYED), 3, 2)]
  {
    var n1 := KiteSends(g);
    n := ThreeRelays(g, n1);
    RunTwo(g, Init(g), Originate(1, false), Deliver(1, 0));
  }

  lemma TwoIsSpent(g: NetConfig, n: Net) returns (n': Net)
    requires g == Kite() && n.hubs.Keys == {1, 2, 3, 4} && n.hubs[2] == EMPTY_HUB
    requires n.wire == [Packet(OgmFrame(SENT), 1, 2), Packet(OgmFrame(RELAYED), 3, 2)]
    ensures ValidRun(g, n, INTO_HUB_TWO) && n' == Run(g, n, INTO_HUB_TWO)
    ensures n'.wire == [] && n'.hubs.Keys == {1, 2, 3, 4} && n'.hubs[1] == n.hubs[1] && n'.hubs[4] == n.hubs[4]
  {
    PostToTwo(g);
    HubTwoStops(g.hub[2], "a");
    var n1 := Next(g, n, Deliver(1, 0));
    assert n1.wire == [Packet(OgmFrame(SENT), 1, 2)];
    RunTwo(g, n, Deliver(1, 0), Deliver(0, 0));
    n' := Next(g, n1, Deliver(0, 0));
  }

  lemma DetourRuns(g: NetConfig) returns (n: Net)
    requires g == Kite()
    ensures ValidRun(g, Init(g), DETOUR_FIRST) && n == Run(g, Init(g), DETOUR_FIRST)
    ensures n.wire == [] && 1 in n.hubs && n.hubs[1].seqNo == 1 && 4 in n.hubs && n.hubs[4] == EMPTY_HUB
  {
    var n1 := DetourArrives(g);
    n := TwoIsSpent(g, n1);
    RunConcat(g, Init(g), ALONG_THE_DETOUR, INTO_HUB_TWO);
  }

  lemma RanCleanly(g: NetConfig, steps: seq<Step>, o: NodeId, n: Net)
    requires ConfigWf(g) && Addressed(g) && o in g.ids && ValidRun(g, Init(g), steps) && n == Run(g, Init(g), steps)
    requires n.wire == [] && o in n.hubs && n.hubs[o].seqNo >= 1
    requires forall s :: s in steps ==> !s.Lose? && !s.SendHello?
    ensures Lost(g, Init(g), steps, o) == Hellos(g, Init(g), steps, o) == {}
    ensures FloodRan(g, steps, o) && PastHellos(g, steps, o)
  {
    NothingLost(g, Init(g), steps, o);
    NoHellos(g, Init(g), steps, o);
  }

  /** A clean run that misses a hub within reach refutes any claim that the TTL is enough. */
  lemma MissedMeansNotCovered(g: NetConfig, steps: seq<Step>, o: NodeId, chain: seq<NodeId>)
    requires FloodRan(g, steps, o) && PastHellos(g, steps, o) && Chain(g, o, chain) && Last(chain) != o
    requires !UpToDate(Run(g, Init(g), steps), o, Last(chain))
    ensures !AllUpToDate(g, Run(g, Init(g), steps), o) && !TtlCovers(g, o)
  {
    if TtlCovers(g, o) {
      CoveredFloodReachesExactly(g, steps, o);
    }
  }

  lemma MissedAtFour(g: NetConfig, steps: seq<Step>, n: Net)
    requires FloodRan(g, steps, 1) && PastHellos(g, steps, 1) && Chain(g, 1, [1, 2, 4])
    requires n == Run(g, Init(g), steps) && 4 in n.hubs && n.hubs[4] == EMPTY_HUB
    ensures !AllUpToDate(g, n, 1) && !TtlCovers(g, 1)
  {
    assert Last([1, 2, 4]) == 4;
    MissedMeansNotCovered(g, steps, 1, [1, 2, 4]);
  }

  lemma DetourIsClean(g: NetConfig, n: Net)
    requires ConfigWf(g) && Addressed(g) && 1 in g.ids && ValidRun(g, Init(g), DETOUR_FIRST)
    requires n == Run(g, Init(g), DETOUR_FIRST) && n.wire == [] && 1 in n.hubs && n.hubs[1].seqNo >= 1
    ensures Lost(g, Init(g), DETOUR_FIRST, 1) == Hellos(g, Init(g), DETOUR_FIRST, 1) == {}
    ensures FloodRan(g, DETOUR_FIRST, 1) && PastHellos(g, DETOUR_FIRST, 1)
  {
    RanCleanly(g, DETOUR_FIRST, 1, n);
  }

  /** The longer way around is faster: hub 2 takes the copy from hub 3, whose time to live is used up, and
      drops the direct one as a duplicate. Hub 4, two links from hub 1, hears nothing. */
  lemma DetourHidesTheMesh(g: NetConfig) returns (n: Net)
    requires g == Kite()
    ensures ValidRun(g, Init(g), DETOUR_FIRST) && n == Run(g, Init(g), DETOUR_FIRST) && n.wire == []
    ensures FloodRan(g, DETOUR_FIRST, 1) && Lost(g, Init(g), DETOUR_FIRST, 1) == Hellos(g, Init(g), DETOUR_FIRST, 1) == {}
    ensures WithinReach(g, 1, 4) && 4 in n.hubs && 1 !in n.hubs[4].filters.lastSeq
    ensures !AllUpToDate(g, n, 1) && !TtlCovers(g, 1)
  {
    KiteIsWellFormed(g);
    n := DetourRuns(g);
    DetourIsClean(g, n);
    FourIsNear(g);
    MissedAtFour(g, DETOUR_FIRST, n);
  }
}
