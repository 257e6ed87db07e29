/** What Hellos do to the mesh: each is taken as an OGM numbered with the time it was sent. */
module OgmHellos {
  import opened Mesh
  import opened OgmHub
  import opened OgmNetwork
  import opened OgmPaths
  import opened OgmConvergence

  /** A hub that was delivered a Hello numbered t is out of date in every continuation until o has sent
      t OGMs. */
  lemma HelloBlocks(g: NetConfig, n: Net, i: nat, now: int, rest: seq<Step>, o: NodeId, t: nat)
    requires ConfigWf(g) && Enabled(g, n, Deliver(i, now)) && t in HelloIn(n, Deliver(i, now), o)
    requires ValidRun(g, Next(g, n, Deliver(i, now)), rest)
    requires var n' := Run(g, Next(g, n, Deliver(i, now)), rest); o in n'.hubs && n'.hubs[o].seqNo < t
    ensures !UpToDate(Run(g, Next(g, n, Deliver(i, now)), rest), o, n.wire[i].to)
  {
    DeliverEffect(g, n, i, now);
    RunRemembers(g, Next(g, n, Deliver(i, now)), rest, n.wire[i].to, o, t);
  }

  // ----- Nobody beyond the neighbours -----

  /** Every neighbour of o has recorded number t, and only o itself has anything of o in flight. */
  ghost predicate Silenced(g: NetConfig, n: Net, o: NodeId, t: nat) {
    && (forall x :: x in n.hubs && x != o && Link(g, o, x) ==> HasSeen(n, x, o, t))
    && forall p :: p in n.wire && MessageOf(p.frame).nodeId == o ==> p.from == o
  }

  /** While o's count is at most t, what o sends is accepted by nobody, or is a Hello; neither is flooded. */
  lemma DeliverAddsNothing(g: NetConfig, n: Net, i: nat, now: int, o: NodeId, t: nat, q: Packet)
    requires ConfigWf(g) && Inv(g, n) && Sent(n, o) && Silenced(g, n, o, t) && n.hubs[o].seqNo <= t
    requires Enabled(g, n, Deliver(i, now)) && q in Next(g, n, Deliver(i, now)).wire
    ensures MessageOf(q.frame).nodeId == o ==> q.from == o
  {
    var p := n.wire[i];
    if q in Without(n.wire, i) {
      WithoutMembers(n.wire, i, q);
    } else {
      var floods := Received(g, n, i, now).floods;
      PostFloodsAre(g, p.to, floods, q);
      var f :| f in floods && q.frame.ogm == f.msg;
      FloodsAreForwarded(g.hub[p.to], n.hubs[p.to], MessageOf(p.frame), g.addrOf[p.from], now, f);
      assert PacketOk(g, n, p);
    }
  }

  lemma NextSilenced(g: NetConfig, n: Net, s: Step, o: NodeId, t: nat)
    requires ConfigWf(g) && Inv(g, n) && Sent(n, o) && Silenced(g, n, o, t) && n.hubs[o].seqNo <= t
    requires Enabled(g, n, s)
    ensures Silenced(g, Next(g, n, s), o, t)
  {
    var n' := Next(g, n, s);
    NextRemembers(g, n, s);
    forall q | q in n'.wire && MessageOf(q.frame).nodeId == o ensures q.from == o {
      if s.Deliver? {
        DeliverAddsNothing(g, n, s.i, s.now, o, t, q);
      } else if s.Originate? && q !in n.wire {
        PostFloodsAre(g, s.h, OgmHub.Originate(g.hub[s.h], n.hubs[s.h], s.startup).floods, q);
      } else if s.SendHello? && q !in n.wire {
        PostedToLinked(g, HelloFrame(s.h, s.sentAt), s.h, None, q);
      }
    }
  }

  /** What a hub has recorded of o, if anything. */
  function Heard(n: Net, y: NodeId, o: NodeId): Option<nat> {
    if y in n.hubs && o in n.hubs[y].filters.lastSeq then Some(n.hubs[y].filters.lastSeq[o]) else None
  }

  lemma HeardStays(g: NetConfig, n: Net, s: Step, o: NodeId, y: NodeId)
    requires Enabled(g, n, s)
    requires s.Deliver? ==> n.wire[s.i].to != y || MessageOf(n.wire[s.i].frame).nodeId != o
    ensures Heard(Next(g, n, s), y, o) == Heard(n, y, o)
  {
    if s.Deliver? {
      DeliverEffect(g, n, s.i, s.now);
    }
  }

  lemma NextDeaf(g: NetConfig, n: Net, s: Step, o: NodeId, t: nat, y: NodeId)
    requires ConfigWf(g) && Inv(g, n) && Silenced(g, n, o, t)
    requires Enabled(g, n, s) && y != o && !Link(g, o, y)
    ensures Heard(Next(g, n, s), y, o) == Heard(n, y, o)
  {
    if s.Deliver? {
      assert n.wire[s.i] in n.wire && PacketOk(g, n, n.wire[s.i]);
    }
    HeardStays(g, n, s, o, y);
  }

  /** Once every neighbour of o has taken a Hello numbered t, no other hub hears anything new of o, in any
      continuation, as long as o has sent at most t OGMs. */
  lemma {:induction false} MeshStaysDeaf(g: NetConfig, n: Net, steps: seq<Step>, o: NodeId, t: nat, y: NodeId)
    requires ConfigWf(g) && Inv(g, n) && Sent(n, o) && Silenced(g, n, o, t) && ValidRun(g, n, steps)
    requires o in Run(g, n, steps).hubs && Run(g, n, steps).hubs[o].seqNo <= t
    requires y != o && !Link(g, o, y)
    ensures Heard(Run(g, n, steps), y, o) == Heard(n, y, o)
    decreases |steps|
  {
    if steps != [] {
      RunCounts(g, n, steps, o);
      NextKeepsInv(g, n, steps[0]);
      NextSent(g, n, steps[0], o);
      NextSilenced(g, n, steps[0], o, t);
      NextDeaf(g, n, steps[0], o, t, y);
      MeshStaysDeaf(g, Next(g, n, steps[0]), steps[1..], o, t, y);
    }
  }

  lemma {:induction false} RunCounts(g: NetConfig, n: Net, steps: seq<Step>, o: NodeId)
    requires ConfigWf(g) && Sent(n, o) && ValidRun(g, n, steps)
    ensures o in Run(g, n, steps).hubs && n.hubs[o].seqNo <= Run(g, n, steps).hubs[o].seqNo
    decreases |steps|
  {
    if steps != [] {
      NextSent(g, n, steps[0], o);
      RunCounts(g, Next(g, n, steps[0]), steps[1..], o);
    }
  }

  // ----- A line of three hubs -----

  /** Three hubs in a line, 1 - 2 - 3, with time to live to spare. */
  function Line(): NetConfig {
    NetConfig([1, 2, 3],
              map[1 := HubConfig(1, ["b"], {"b"}, 4, false),
                  2 := HubConfig(2, ["a", "c"], {"a", "c"}, 4, false),
                  3 := HubConfig(3, ["b"], {"b"}, 4, false)],
              map[1 := "a", 2 := "b", 3 := "c"],
              map["a" := 1, "b" := 2, "c" := 3])
  }

  lemma LineIsWellFormed(g: NetConfig)
    requires g == Line()
    ensures ConfigWf(g) && Addressed(g)
  {
    AddressesDiffer();
    assert g.addrOf.Keys == {1, 2, 3} && g.listener.Keys == {"a", "b", "c"} && g.hub.Keys == {1, 2, 3};
    assert g.listener["a"] == 1 && g.listener["b"] == 2 && g.listener["c"] == 3;
  }

  lemma LineIsConnected(g: NetConfig)
    requires g == Line()
    ensures Chain(g, 1, [1, 2, 3])
  {
    assert "b" in g.hub[1].peers && "c" in g.hub[2].peers;
    assert Link(g, 1, 2) && Link(g, 2, 3);
  }

  lemma PostOne(g: NetConfig, f: Frame, from: NodeId, peer: Addr, to: NodeId)
    requires peer in g.listener && g.listener[peer] == to
    ensures Post(g, f, from, FloodTargets([peer], {peer}, None)) == [Packet(f, from, to)]
  {
    assert FloodTargets([peer], {peer}, None) == [peer];
    assert [peer][1..] == [];
    assert Post(g, f, from, []) == [];
  }

  const FIRST := Ogm(1, 1, 4, true, None, 0)

  /** Hub 1 broadcasts its first OGM and pings two seconds later; the ping overtakes the OGM. */
  function HelloOvertakes(t: nat): seq<Step> {
    [Originate(1, false), SendHello(1, t)] + [Deliver(1, 0)]
  }

  lemma BothAreSent(g: NetConfig, t: nat) returns (n: Net)
    requires g == Line()
    ensures ValidRun(g, Init(g), [Originate(1, false), SendHello(1, t)])
    ensures n == Run(g, Init(g), [Originate(1, false), SendHello(1, t)]) && n.hubs.Keys == {1, 2, 3}
    ensures n.wire == [Packet(OgmFrame(FIRST), 1, 2), Packet(HelloFrame(1, t), 1, 2)]
    ensures n.hubs[1].seqNo == 1 && n.hubs[2] == n.hubs[3] == EMPTY_HUB
  {
    PostOne(g, OgmFrame(FIRST), 1, "b", 2);
    PostOne(g, HelloFrame(1, t), 1, "b", 2);
    assert [Flood(FIRST, None)][1..] == [];
    assert PostFloods(g, 1, []) == [];
    var n1 := Next(g, Init(g), Originate(1, false));
    assert n1.wire == [Packet(OgmFrame(FIRST), 1, 2)];
    RunTwo(g, Init(g), Originate(1, false), SendHello(1, t));
    n := Next(g, n1, SendHello(1, t));
  }

  lemma HelloIsTaken(c: HubConfig, t: nat, from: Addr)
    requires c.self == 2
    ensures var o := HandlePacket(c, EMPTY_HUB, HelloFrame(1, t), from, 0);
            o.floods == [] && o.hub.filters.lastSeq == map[1 := t]
  {
  }

  lemma HelloArrives(g: NetConfig, t: nat) returns (n: Net)
    requires g == Line()
    ensures ValidRun(g, Init(g), HelloOvertakes(t)) && n == Run(g, Init(g), HelloOvertakes(t))
    ensures n.wire == [Packet(OgmFrame(FIRST), 1, 2)] && n.hubs.Keys == {1, 2, 3} && n.hubs[1].seqNo == 1
    ensures n.hubs[2].filters.lastSeq == map[1 := t] && n.hubs[3] == EMPTY_HUB
  {
    var n1 := BothAreSent(g, t);
    HelloIsTaken(g.hub[2], t, g.addrOf[1]);
    assert Enabled(g, n1, Deliver(1, 0)) && Received(g, n1, 1, 0).floods == [];
    n := Next(g, n1, Deliver(1, 0));
    RunOne(g, n1, Deliver(1, 0));
    RunConcat(g, Init(g), [Originate(1, false), SendHello(1, t)], [Deliver(1, 0)]);
  }

  lemma OnlyTwoIsLinked(g: NetConfig, x: NodeId)
    requires g == Line() && Link(g, 1, x)
    ensures x == 2
  {
    AddressesDiffer();
  }

  lemma LineIsSilenced(g: NetConfig, n: Net, t: nat)
    requires g == Line() && n.wire == [Packet(OgmFrame(FIRST), 1, 2)] && n.hubs.Keys == {1, 2, 3}
    requires n.hubs[1].seqNo == 1 && n.hubs[2].filters.lastSeq == map[1 := t]
    ensures Silenced(g, n, 1, t) && Sent(n, 1) && !Link(g, 1, 3)
  {
    forall x | Link(g, 1, x) ensures x == 2 {
      OnlyTwoIsLinked(g, x);
    }
  }

  /** A Hello sent at time t that overtakes the first OGM keeps the far hub from hearing of hub 1 in every
      continuation, whatever is sent, until hub 1 has sent more than t OGMs of its own. */
  lemma FarHubHearsNothing(g: NetConfig, t: nat, rest: seq<Step>)
    requires g == Line() && ValidRun(g, Init(g), HelloOvertakes(t))
    requires ValidRun(g, Run(g, Init(g), HelloOvertakes(t)), rest)
    requires var n := Run(g, Run(g, Init(g), HelloOvertakes(t)), rest); 1 in n.hubs && n.hubs[1].seqNo <= t
    ensures ConfigWf(g) && Chain(g, 1, [1, 2, 3])
    ensures var n := Run(g, Run(g, Init(g), HelloOvertakes(t)), rest); 3 in n.hubs && 1 !in n.hubs[3].filters.lastSeq
  {
    LineIsWellFormed(g);
    LineIsConnected(g);
    var n := HelloArrives(g, t);
    InitInv(g);
    RunKeepsInv(g, Init(g), HelloOvertakes(t));
    LineIsSilenced(g, n, t);
    RunKeepsInv(g, n, rest);
    MeshStaysDeaf(g, n, rest, 1, t, 3);
  }

  lemma OgmIsDropped(g: NetConfig, n: Net, t: nat) returns (n': Net)
    requires g == Line() && n.wire == [Packet(OgmFrame(FIRST), 1, 2)] && n.hubs.Keys == {1, 2, 3} && t >= 1
    requires n.hubs[2].filters.lastSeq == map[1 := t]
    ensures ValidRun(g, n, [Deliver(0, 0)]) && n' == Run(g, n, [Deliver(0, 0)])
    ensures n'.wire == [] && 1 in n'.hubs && n'.hubs[1] == n.hubs[1]
  {
    RunOne(g, n, Deliver(0, 0));
    n' := Next(g, n, Deliver(0, 0));
  }

  /** For instance: the OGM then arrives too; nothing is lost, all settles, and the far hub has heard
      nothing, although it is within reach. */
  lemma HelloBreaksConvergence(g: NetConfig, t: nat) returns (steps: seq<Step>)
    requires g == Line() && t >= 1
    ensures ConfigWf(g) && Addressed(g) && g.hub[1].ttl >= |g.ids| - 1 && Chain(g, 1, [1, 2, 3])
    ensures ValidRun(g, Init(g), steps) && Settled(Run(g, Init(g), steps), 1)
    ensures !UpToDate(Run(g, Init(g), steps), 1, 3)
    ensures steps == HelloOvertakes(t) + [Deliver(0, 0)]
  {
    LineIsWellFormed(g);
    LineIsConnected(g);
    var n := HelloArrives(g, t);
    var n' := OgmIsDropped(g, n, t);
    FarHubHearsNothing(g, t, [Deliver(0, 0)]);
    steps := HelloOvertakes(t) + [Deliver(0, 0)];
    RunConcat(g, Init(g), HelloOvertakes(t), [Deliver(0, 0)]);
  }
}
