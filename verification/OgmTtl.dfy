/** How far a flood gets: which TTLs are enough, and what happens when one is not. */
module OgmTtl {
  import opened Mesh
  import opened OgmHub
  import opened OgmNetwork
  import opened OgmPaths
  import opened OgmConvergence

  // ----- Enough for every path -----

  /** No loop-free path from o has more links than o's TTL plus one. */
  ghost predicate TtlCovers(g: NetConfig, o: NodeId) {
    o in g.hub && forall path: seq<NodeId> :: IsPath(g, path) && path[0] == o ==> |path| <= g.hub[o].ttl + 2
  }

  /** In a mesh of at most TTL + 2 hubs that holds of any links. */
  lemma SmallMeshIsCovered(g: NetConfig, o: NodeId)
    requires ConfigWf(g) && o in g.ids && |g.ids| <= g.hub[o].ttl + 2
    ensures TtlCovers(g, o)
  {
    forall path: seq<NodeId> | IsPath(g, path) && path[0] == o ensures |path| <= g.hub[o].ttl + 2 {
      PathLength(g, path);
    }
  }

  /** Then a hub that gets an OGM with its time to live used up links only to hubs that have it already:
      any other would make the OGM's trail a longer path. */
  lemma SpentLinksBack(g: NetConfig, n: Net, s: Step, o: NodeId, q: nat, y: NodeId, x: NodeId)
    requires ConfigWf(g) && WireOk(g, n) && TtlCovers(g, o) && Enabled(g, n, s)
    requires y in SpentIn(g, n, s, o, q) && Link(g, y, x) && x != o
    ensures HasSeen(Next(g, n, s), x, o, q)
  {
    var p := n.wire[s.i];
    assert p in n.wire && PacketOk(g, n, p);
    var trail: seq<NodeId> :| Trail(g, n, MessageOf(p.frame), trail) && Last(trail) == p.from;
    AcceptorIsFresh(g, n, y, p.frame.ogm, trail);
    ExtendPath(g, trail, y);
    LinkedIsHub(g, y, x);
    if x == y {
      DeliverRecords(g, n, s.i, s.now);
    } else if x in trail {
      var i :| 0 <= i < |trail| && trail[i] == x;
      assert HasSeen(n, trail[i], o, p.frame.ogm.seqNo);
      NextRemembers(g, n, s);
    } else {
      ExtendPath(g, trail + [y], x);
      assert false;
    }
  }

  /** Whoever a spent hub links to has number q. */
  ghost predicate LinksBack(g: NetConfig, n: Net, o: NodeId, q: nat, spent: set<NodeId>) {
    forall y, x :: y in spent && Link(g, y, x) && x != o ==> HasSeen(n, x, o, q)
  }

  lemma NextLinksBack(g: NetConfig, n: Net, s: Step, o: NodeId, q: nat, spent: set<NodeId>)
    requires ConfigWf(g) && WireOk(g, n) && TtlCovers(g, o) && Enabled(g, n, s) && LinksBack(g, n, o, q, spent)
    ensures LinksBack(g, Next(g, n, s), o, q, spent + SpentIn(g, n, s, o, q))
  {
    NextRemembers(g, n, s);
    forall y, x | y in spent + SpentIn(g, n, s, o, q) && Link(g, y, x) && x != o ensures HasSeen(Next(g, n, s), x, o, q) {
      if y in spent {
        assert HasSeen(n, x, o, q);
      } else {
        SpentLinksBack(g, n, s, o, q, y, x);
      }
    }
  }

  lemma {:induction false} RunLinksBack(g: NetConfig, n: Net, steps: seq<Step>, o: NodeId, q: nat, spent: set<NodeId>)
    requires ConfigWf(g) && Inv(g, n) && TtlCovers(g, o) && ValidRun(g, n, steps) && LinksBack(g, n, o, q, spent)
    ensures LinksBack(g, Run(g, n, steps), o, q, spent + Spent(g, n, steps, o, q))
    decreases |steps|
  {
    SpentUnfolds(g, n, steps, o, q, spent);
    if steps != [] {
      NextKeepsInv(g, n, steps[0]);
      NextLinksBack(g, n, steps[0], o, q, spent);
      RunLinksBack(g, Next(g, n, steps[0]), steps[1..], o, q, spent + SpentIn(g, n, steps[0], o, q));
    }
  }

  lemma NothingIsMissed(g: NetConfig, steps: seq<Step>, o: NodeId)
    requires FloodRan(g, steps, o) && PastHellos(g, steps, o) && TtlCovers(g, o)
    ensures SpentAreNoLoss(g, steps, o)
  {
    var n := Run(g, Init(g), steps);
    var latest := n.hubs[o].seqNo;
    InitInv(g);
    RunLinksBack(g, Init(g), steps, o, latest, {});
    assert {} + SpentHubs(g, steps, o) == SpentHubs(g, steps, o);
    forall y, x | y in SpentHubs(g, steps, o) && Link(g, y, x) && x != o ensures UpToDate(n, o, x) {
      assert HasSeen(n, x, o, latest);
      NobodyIsAhead(g, steps, o, x);
    }
  }

  /** With a TTL that covers every loop-free path, the origin's own Hellos are all that matters: the flood of
      its latest OGM reaches every hub within reach if and only if its count is past them. */
  lemma CoveredFloodReachesExactly(g: NetConfig, steps: seq<Step>, o: NodeId)
    requires FloodRan(g, steps, o) && TtlCovers(g, o)
    requires Run(g, Init(g), steps).hubs[o].seqNo !in Hellos(g, Init(g), steps, o)
    ensures AllUpToDate(g, Run(g, Init(g), steps), o) <==> PastHellos(g, steps, o)
  {
    FloodReachesExactly(g, steps, o);
    if PastHellos(g, steps, o) {
      NothingIsMissed(g, steps, o);
    }
  }

  // ----- Never further -----

  /** Some loop-free path leads from o to x within o's TTL. */
  ghost predicate WithinReach(g: NetConfig, o: NodeId, x: NodeId) {
    o in g.hub && exists path: seq<NodeId> :: IsPath(g, path) && path[0] == o && Last(path) == x && |path| <= g.hub[o].ttl + 2
  }

  ghost predicate HeardWithinReach(g: NetConfig, n: Net) {
    forall x, o :: x in n.hubs && o in n.hubs[x].filters.lastSeq ==> WithinReach(g, o, x)
  }

  lemma AcceptedWithinReach(g: NetConfig, n: Net, i: nat, now: int)
    requires ConfigWf(g) && WireOk(g, n) && Enabled(g, n, Deliver(i, now))
    requires Accepts(g.hub[n.wire[i].to], n.hubs[n.wire[i].to], MessageOf(n.wire[i].frame))
    ensures WithinReach(g, MessageOf(n.wire[i].frame).nodeId, n.wire[i].to)
  {
    var p := n.wire[i];
    assert p in n.wire && PacketOk(g, n, p);
    var trail: seq<NodeId> :| Trail(g, n, MessageOf(p.frame), trail) && Last(trail) == p.from;
    AcceptorIsFresh(g, n, p.to, MessageOf(p.frame), trail);
    ExtendPath(g, trail, p.to);
    TtlOfMessage(g, p.frame);
    var path := trail + [p.to];
    assert IsPath(g, path) && path[0] == MessageOf(p.frame).nodeId && Last(path) == p.to;
  }

  lemma NextWithinReach(g: NetConfig, n: Net, s: Step)
    requires ConfigWf(g) && WireOk(g, n) && Enabled(g, n, s) && HeardWithinReach(g, n)
    ensures HeardWithinReach(g, Next(g, n, s))
  {
    if s.Deliver? {
      DeliverEffect(g, n, s.i, s.now);
      if Accepts(g.hub[n.wire[s.i].to], n.hubs[n.wire[s.i].to], MessageOf(n.wire[s.i].frame)) {
        AcceptedWithinReach(g, n, s.i, s.now);
      }
    }
  }

  /** No hub ever hears of an origin that has no path of at most TTL + 1 links to it. */
  lemma {:induction false} NobodyHearsFurther(g: NetConfig, n: Net, steps: seq<Step>)
    requires ConfigWf(g) && Inv(g, n) && HeardWithinReach(g, n) && ValidRun(g, n, steps)
    ensures HeardWithinReach(g, Run(g, n, steps))
    decreases |steps|
  {
    if steps != [] {
      NextKeepsInv(g, n, steps[0]);
      NextWithinReach(g, n, steps[0]);
      NobodyHearsFurther(g, Next(g, n, steps[0]), steps[1..]);
    }
  }
}
