/** When the flood of an origin's latest OGM reaches every hub: whatever else is lost, pinged or
    failed over, only that OGM and the origin's own Hellos matter. */
module OgmConvergence {
  import opened Mesh
  import opened Routing
  import opened OgmHub
  import opened OgmHubFacts
  import opened OgmNetwork
  import opened OgmPaths

  /** Sending to the address a hub is seen at reaches that hub. */
  ghost predicate Addressed(g: NetConfig) {
    forall h :: h in g.addrOf && g.addrOf[h] in g.listener ==> g.listener[g.addrOf[h]] == h
  }

  // ----- What a run does to one origin -----

  predicate IsOgmOf(f: Frame, o: NodeId) {
    f.OgmFrame? && f.ogm.nodeId == o
  }

  /** The numbers of o's OGMs that the step loses. */
  function LostIn(n: Net, s: Step, o: NodeId): set<nat> {
    if s.Lose? && s.i < |n.wire| && IsOgmOf(n.wire[s.i].frame, o) then {n.wire[s.i].frame.ogm.seqNo} else {}
  }

  function Lost(g: NetConfig, n: Net, steps: seq<Step>, o: NodeId): set<nat>
    requires ValidRun(g, n, steps)
    decreases |steps|
  {
    if steps == [] then {} else LostIn(n, steps[0], o) + Lost(g, Next(g, n, steps[0]), steps[1..], o)
  }

  /** The numbers of o's Hellos that the step delivers to another hub. */
  function HelloIn(n: Net, s: Step, o: NodeId): set<nat> {
    if s.Deliver? && s.i < |n.wire| && n.wire[s.i].to != o
       && n.wire[s.i].frame.HelloFrame? && n.wire[s.i].frame.nodeId == o
    then {n.wire[s.i].frame.sentAt} else {}
  }

  function Hellos(g: NetConfig, n: Net, steps: seq<Step>, o: NodeId): set<nat>
    requires ValidRun(g, n, steps)
    decreases |steps|
  {
    if steps == [] then {} else HelloIn(n, steps[0], o) + Hellos(g, Next(g, n, steps[0]), steps[1..], o)
  }

  /** The step loses no OGM of o numbered q or more, and delivers no such Hello. */
  predicate CleanStep(n: Net, s: Step, o: NodeId, q: nat) {
    (forall t :: t in LostIn(n, s, o) ==> t < q) && forall t :: t in HelloIn(n, s, o) ==> t < q
  }

  predicate CleanRun(g: NetConfig, n: Net, steps: seq<Step>, o: NodeId, q: nat)
    requires ValidRun(g, n, steps)
    decreases |steps|
  {
    steps == [] || (CleanStep(n, steps[0], o, q) && CleanRun(g, Next(g, n, steps[0]), steps[1..], o, q))
  }

  lemma {:induction false} RunIsClean(g: NetConfig, n: Net, steps: seq<Step>, o: NodeId, q: nat)
    requires ValidRun(g, n, steps)
    requires forall t :: t in Lost(g, n, steps, o) ==> t < q
    requires forall t :: t in Hellos(g, n, steps, o) ==> t < q
    ensures CleanRun(g, n, steps, o, q)
    decreases |steps|
  {
    if steps != [] {
      forall t | t in LostIn(n, steps[0], o) ensures t < q {
        assert t in Lost(g, n, steps, o);
      }
      forall t | t in HelloIn(n, steps[0], o) ensures t < q {
        assert t in Hellos(g, n, steps, o);
      }
      var n' := Next(g, n, steps[0]);
      forall t | t in Lost(g, n', steps[1..], o) ensures t < q {
        assert t in Lost(g, n, steps, o);
      }
      forall t | t in Hellos(g, n', steps[1..], o) ensures t < q {
        assert t in Hellos(g, n, steps, o);
      }
      RunIsClean(g, n', steps[1..], o, q);
    }
  }

  /** The hub, if any, that the step makes accept an OGM of o numbered q or more with its time to live
      used up. */
  function SpentIn(g: NetConfig, n: Net, s: Step, o: NodeId, q: nat): set<NodeId> {
    if s.Deliver? && Enabled(g, n, s) && Carries(n.wire[s.i], o, q) && n.wire[s.i].frame.ogm.ttl == 0
       && Accepts(g.hub[n.wire[s.i].to], n.hubs[n.wire[s.i].to], n.wire[s.i].frame.ogm)
    then {n.wire[s.i].to} else {}
  }

  function Spent(g: NetConfig, n: Net, steps: seq<Step>, o: NodeId, q: nat): set<NodeId>
    requires ValidRun(g, n, steps)
    decreases |steps|
  {
    if steps == [] then {} else SpentIn(g, n, steps[0], o, q) + Spent(g, Next(g, n, steps[0]), steps[1..], o, q)
  }

  // ----- What the flood keeps -----

  /** The latest sequence number of o that hub h has. */
  function Level(n: Net, h: NodeId, o: NodeId): nat
    requires h in n.hubs
  {
    if h == o then n.hubs[h].seqNo else Count(n.hubs[h].filters.lastSeq, o)
  }

  predicate Carries(p: Packet, o: NodeId, q: nat) {
    IsOgmOf(p.frame, o) && p.frame.ogm.seqNo >= q
  }

  ghost predicate InFlight(n: Net, o: NodeId, q: nat, from: NodeId, to: NodeId) {
    exists p :: p in n.wire && Carries(p, o, q) && p.from == from && p.to == to
  }

  /** If a hub has number q of o, each hub it links to has it too, or it is on its way there. */
  ghost predicate Passed(n: Net, o: NodeId, q: nat, y: NodeId, x: NodeId)
    requires y in n.hubs && x in n.hubs
  {
    x == o || Level(n, y, o) < q || Level(n, x, o) >= q || InFlight(n, o, q, y, x)
  }

  /** That holds of every link out of a hub that is not spent. */
  ghost predicate Covered(g: NetConfig, n: Net, o: NodeId, q: nat, spent: set<NodeId>)
    requires forall id :: id in g.ids ==> id in n.hubs
  {
    forall y, x :: y in g.ids && x in g.ids && Link(g, y, x) && y !in spent ==> Passed(n, o, q, y, x)
  }

  ghost predicate Good(g: NetConfig, n: Net, o: NodeId, q: nat, spent: set<NodeId>) {
    ConfigWf(g) && Inv(g, n) && o in g.ids && q >= 1 && Covered(g, n, o, q, spent)
  }

  // ----- Flooding really sends -----

  lemma {:induction false} PostFloodsContain(g: NetConfig, h: NodeId, floods: seq<Flood>, f: Flood, p: Packet)
    requires h in g.hub && f in floods && p in PostFlood(g, h, f)
    ensures p in PostFloods(g, h, floods)
  {
    if f != floods[0] {
      PostFloodsContain(g, h, floods[1..], f, p);
    }
  }

  /** A flood puts a packet on the way to every linked hub except the one it came from. */
  lemma FloodReaches(g: NetConfig, h: NodeId, floods: seq<Flood>, f: Flood, x: NodeId)
    requires h in g.hub && f in floods && Link(g, h, x)
    requires f.except.Some? && f.except.value in g.listener ==> g.listener[f.except.value] != x
    ensures Packet(OgmFrame(f.msg), h, x) in PostFloods(g, h, floods)
  {
    var peers, ok := g.hub[h].peers, g.hub[h].resolvable;
    var a :| a in peers && a in ok && a in g.listener && g.listener[a] == x;
    FloodTargetsAre(peers, ok, f.except);
    PostAre(g, OgmFrame(f.msg), h, FloodTargets(peers, ok, f.except));
    PostFloodsContain(g, h, floods, f, Packet(OgmFrame(f.msg), h, x));
  }

  // ----- Deliveries -----

  lemma OfferInstallsRoute(t: Tables, r: Route)
    ensures r.dest in MaybeUpsertRoute(t, r).routes
    ensures forall d :: d in t.routes ==> d in MaybeUpsertRoute(t, r).routes
  {
  }

  /** What a delivery does to the receiving hub's filter and routes. */
  lemma DeliverEffect(g: NetConfig, n: Net, i: nat, now: int)
    requires Enabled(g, n, Deliver(i, now))
    ensures var h, m := n.wire[i].to, MessageOf(n.wire[i].frame);
            var s, s' := n.hubs[h], Received(g, n, i, now).hub;
            && s'.seqNo == s.seqNo
            && s'.filters.lastSeq ==
               (if Accepts(g.hub[h], s, m) then s.filters.lastSeq[m.nodeId := m.seqNo] else s.filters.lastSeq)
            && (forall d :: d in s.tables.routes ==> d in s'.tables.routes)
            && (Accepts(g.hub[h], s, m) ==> m.nodeId in s'.tables.routes)
  {
    var h, m := n.wire[i].to, MessageOf(n.wire[i].frame);
    OfferInstallsRoute(n.hubs[h].tables, Offer(n.hubs[h].links, m, g.addrOf[n.wire[i].from]));
  }

  /** A delivery raises the receiver to what it was sent, and nobody else. */
  lemma DeliverRaises(g: NetConfig, n: Net, i: nat, now: int, o: NodeId)
    requires ConfigWf(g) && Enabled(g, n, Deliver(i, now))
    ensures var n', to, m := Next(g, n, Deliver(i, now)), n.wire[i].to, MessageOf(n.wire[i].frame);
            && n'.hubs.Keys == n.hubs.Keys
            && (forall x :: x in n.hubs && x != to ==> Level(n', x, o) == Level(n, x, o))
            && Level(n', to, o) ==
               (if m.nodeId == o && Accepts(g.hub[to], n.hubs[to], m) then m.seqNo else Level(n, to, o))
            && Level(n, to, o) <= Level(n', to, o)
            && (m.nodeId == o && to != o ==> m.seqNo <= Level(n', to, o))
  {
    DeliverEffect(g, n, i, now);
  }

  /** The sender of a packet has, of its origin, at least what it sends. */
  lemma SenderHas(g: NetConfig, n: Net, p: Packet)
    requires PacketOk(g, n, p) && p.from in n.hubs && p.from != MessageOf(p.frame).nodeId
    ensures MessageOf(p.frame).seqNo <= Level(n, p.from, MessageOf(p.frame).nodeId)
  {
    var trail: seq<NodeId> :| Trail(g, n, MessageOf(p.frame), trail) && Last(trail) == p.from;
    assert HasSeen(n, trail[|trail| - 1], MessageOf(p.frame).nodeId, MessageOf(p.frame).seqNo);
  }

  /** A hub that accepts an OGM floods it to every linked hub but the sender's address. */
  lemma AcceptorFloods(g: NetConfig, n: Net, i: nat, now: int, x: NodeId)
    requires ConfigWf(g) && Enabled(g, n, Deliver(i, now)) && n.wire[i].frame.OgmFrame? && PacketOk(g, n, n.wire[i])
    requires FiltersWf(n.hubs[n.wire[i].to].filters) && n.wire[i].frame.ogm.ttl > 0
    requires Accepts(g.hub[n.wire[i].to], n.hubs[n.wire[i].to], n.wire[i].frame.ogm)
    requires Link(g, n.wire[i].to, x)
    requires var from := g.addrOf[n.wire[i].from]; from in g.listener ==> g.listener[from] != x
    ensures InFlight(Next(g, n, Deliver(i, now)), n.wire[i].frame.ogm.nodeId, n.wire[i].frame.ogm.seqNo, n.wire[i].to, x)
  {
    var p := n.wire[i];
    var h, m, from := p.to, p.frame.ogm, g.addrOf[p.from];
    AcceptedIsRebroadcast(g.hub[h], n.hubs[h], m, from, now);
    var f := Flood(Forwarded(g.hub[h], m, m.startup), Some(from));
    FloodReaches(g, h, Received(g, n, i, now).floods, f, x);
    assert Carries(Packet(OgmFrame(f.msg), h, x), m.nodeId, m.seqNo);
  }

  lemma InFlightBelow(n: Net, o: NodeId, q: nat, q': nat, from: NodeId, to: NodeId)
    requires InFlight(n, o, q', from, to) && q <= q'
    ensures InFlight(n, o, q, from, to)
  {
    var p :| p in n.wire && Carries(p, o, q') && p.from == from && p.to == to;
    assert Carries(p, o, q);
  }

  /** A hub that accepts an OGM of o with time to live left passes it to every hub it links to. */
  lemma AcceptorPasses(g: NetConfig, n: Net, i: nat, now: int, o: NodeId, q: nat, x: NodeId)
    requires ConfigWf(g) && Addressed(g) && o in g.ids
    requires Enabled(g, n, Deliver(i, now)) && Carries(n.wire[i], o, q) && PacketOk(g, n, n.wire[i])
    requires n.wire[i].frame.ogm.ttl > 0
    requires n.wire[i].from in n.hubs && FiltersWf(n.hubs[n.wire[i].to].filters)
    requires Accepts(g.hub[n.wire[i].to], n.hubs[n.wire[i].to], n.wire[i].frame.ogm)
    requires x in n.hubs && Link(g, n.wire[i].to, x)
    ensures Passed(Next(g, n, Deliver(i, now)), o, q, n.wire[i].to, x)
  {
    var p := n.wire[i];
    DeliverRaises(g, n, i, now, o);
    var from := g.addrOf[p.from];
    if from in g.listener && g.listener[from] == x {
      assert x == p.from;
      if x != o {
        SenderHas(g, n, p);
      }
    } else {
      AcceptorFloods(g, n, i, now, x);
      InFlightBelow(Next(g, n, Deliver(i, now)), o, q, p.frame.ogm.seqNo, p.to, x);
    }
  }

  /** Everyone else's obligation survives the delivery. */
  lemma BystanderPasses(g: NetConfig, n: Net, i: nat, now: int, o: NodeId, q: nat, y: NodeId, x: NodeId)
    requires ConfigWf(g) && Enabled(g, n, Deliver(i, now)) && y in n.hubs && x in n.hubs
    requires Passed(n, o, q, y, x)
    requires var n' := Next(g, n, Deliver(i, now)); y in n'.hubs && (Level(n', y, o) >= q ==> Level(n, y, o) >= q)
    ensures Next(g, n, Deliver(i, now)).hubs.Keys == n.hubs.Keys
    ensures Passed(Next(g, n, Deliver(i, now)), o, q, y, x)
  {
    var n' := Next(g, n, Deliver(i, now));
    DeliverRaises(g, n, i, now, o);
    if x != o && Level(n', y, o) >= q && Level(n, x, o) < q {
      var p :| p in n.wire && Carries(p, o, q) && p.from == y && p.to == x;
      WithoutMembers(n.wire, i, p);
      if p in Without(n.wire, i) {
        assert p in n'.wire;
      }
    }
  }

  /** What a hub newly accepts of o, at q or above, is a true OGM and is passed on. */
  lemma ReachedPasses(g: NetConfig, n: Net, i: nat, now: int, o: NodeId, q: nat, x: NodeId)
    requires ConfigWf(g) && Inv(g, n) && Addressed(g) && o in g.ids
    requires Enabled(g, n, Deliver(i, now)) && CleanStep(n, Deliver(i, now), o, q)
    requires n.wire[i].to !in SpentIn(g, n, Deliver(i, now), o, q)
    requires var m := MessageOf(n.wire[i].frame);
             m.nodeId == o && m.seqNo >= q && Accepts(g.hub[n.wire[i].to], n.hubs[n.wire[i].to], m)
    requires x in n.hubs && Link(g, n.wire[i].to, x)
    ensures Passed(Next(g, n, Deliver(i, now)), o, q, n.wire[i].to, x)
  {
    var p := n.wire[i];
    assert MessageOf(p.frame).seqNo !in HelloIn(n, Deliver(i, now), o);
    assert HubOk(g, p.to, n.hubs[p.to]) && PacketOk(g, n, p);
    LinkedIsHub(g, p.from, p.to);
    AcceptorPasses(g, n, i, now, o, q, x);
  }

  lemma DeliverPasses(g: NetConfig, n: Net, i: nat, now: int, o: NodeId, q: nat, y: NodeId, x: NodeId)
    requires ConfigWf(g) && Inv(g, n) && Addressed(g) && o in g.ids
    requires Enabled(g, n, Deliver(i, now)) && CleanStep(n, Deliver(i, now), o, q)
    requires y !in SpentIn(g, n, Deliver(i, now), o, q)
    requires y in n.hubs && x in n.hubs && Link(g, y, x) && Passed(n, o, q, y, x)
    ensures Next(g, n, Deliver(i, now)).hubs.Keys == n.hubs.Keys
    ensures Passed(Next(g, n, Deliver(i, now)), o, q, y, x)
  {
    var m := MessageOf(n.wire[i].frame);
    DeliverRaises(g, n, i, now, o);
    if y == n.wire[i].to && m.nodeId == o && Accepts(g.hub[y], n.hubs[y], m) && m.seqNo >= q {
      ReachedPasses(g, n, i, now, o, q, x);
    } else {
      BystanderPasses(g, n, i, now, o, q, y, x);
    }
  }

  lemma DeliverCovers(g: NetConfig, n: Net, i: nat, now: int, o: NodeId, q: nat, spent: set<NodeId>)
    requires Good(g, n, o, q, spent) && Addressed(g)
    requires Enabled(g, n, Deliver(i, now)) && CleanStep(n, Deliver(i, now), o, q)
    ensures Next(g, n, Deliver(i, now)).hubs.Keys == n.hubs.Keys
    ensures Covered(g, Next(g, n, Deliver(i, now)), o, q, spent + SpentIn(g, n, Deliver(i, now), o, q))
  {
    DeliverRaises(g, n, i, now, o);
    forall y, x | y in g.ids && x in g.ids && Link(g, y, x) && y !in spent + SpentIn(g, n, Deliver(i, now), o, q)
      ensures Passed(Next(g, n, Deliver(i, now)), o, q, y, x)
    {
      DeliverPasses(g, n, i, now, o, q, y, x);
    }
  }

  // ----- The other steps -----

  /** A step that changes no level and takes none of the packets away keeps every obligation. */
  lemma BackgroundCovers(g: NetConfig, n: Net, n': Net, o: NodeId, q: nat, spent: set<NodeId>)
    requires (forall id :: id in g.ids ==> id in n.hubs) && Covered(g, n, o, q, spent) && n'.hubs.Keys == n.hubs.Keys
    requires forall h :: h in n.hubs ==> Level(n', h, o) == Level(n, h, o)
    requires forall p :: p in n.wire && Carries(p, o, q) ==> p in n'.wire
    ensures Covered(g, n', o, q, spent)
  {
    forall y, x | y in g.ids && x in g.ids && Link(g, y, x) && y !in spent ensures Passed(n', o, q, y, x) {
      assert Passed(n, o, q, y, x);
    }
  }

  lemma OriginPasses(g: NetConfig, n: Net, startup: bool, o: NodeId, q: nat, y: NodeId, x: NodeId)
    requires ConfigWf(g) && Enabled(g, n, Originate(o, startup)) && Link(g, y, x)
    requires y in n.hubs && x in n.hubs && Passed(n, o, q, y, x)
    ensures Next(g, n, Originate(o, startup)).hubs.Keys == n.hubs.Keys
    ensures Passed(Next(g, n, Originate(o, startup)), o, q, y, x)
  {
    var n' := Next(g, n, Originate(o, startup));
    var floods := OgmHub.Originate(g.hub[o], n.hubs[o], startup).floods;
    if y == o && Level(n', o, o) >= q {
      FloodReaches(g, o, floods, floods[0], x);
      assert Carries(Packet(OgmFrame(floods[0].msg), o, x), o, q);
    } else if InFlight(n, o, q, y, x) {
      var p :| p in n.wire && Carries(p, o, q) && p.from == y && p.to == x;
      assert p in n'.wire;
    }
  }

  lemma OriginateCovers(g: NetConfig, n: Net, h: NodeId, startup: bool, o: NodeId, q: nat, spent: set<NodeId>)
    requires ConfigWf(g) && (forall id :: id in g.ids ==> id in n.hubs) && Covered(g, n, o, q, spent)
    requires Enabled(g, n, Originate(h, startup))
    ensures Next(g, n, Originate(h, startup)).hubs.Keys == n.hubs.Keys
    ensures Covered(g, Next(g, n, Originate(h, startup)), o, q, spent)
  {
    var n' := Next(g, n, Originate(h, startup));
    if h != o {
      BackgroundCovers(g, n, n', o, q, spent);
    } else {
      forall y, x | y in g.ids && x in g.ids && Link(g, y, x) && y !in spent ensures Passed(n', o, q, y, x) {
        OriginPasses(g, n, startup, o, q, y, x);
      }
    }
  }

  lemma LoseCovers(g: NetConfig, n: Net, i: nat, o: NodeId, q: nat, spent: set<NodeId>)
    requires (forall id :: id in g.ids ==> id in n.hubs) && Covered(g, n, o, q, spent)
    requires Enabled(g, n, Lose(i)) && CleanStep(n, Lose(i), o, q)
    ensures Covered(g, Next(g, n, Lose(i)), o, q, spent)
  {
    assert !Carries(n.wire[i], o, q) by {
      if IsOgmOf(n.wire[i].frame, o) {
        assert n.wire[i].frame.ogm.seqNo in LostIn(n, Lose(i), o);
      }
    }
    forall p | p in n.wire && Carries(p, o, q) ensures p in Next(g, n, Lose(i)).wire {
      WithoutMembers(n.wire, i, p);
    }
    BackgroundCovers(g, n, Next(g, n, Lose(i)), o, q, spent);
  }

  /** Pings, duplicates, failovers and other writers of the node table take nothing from the flood. */
  lemma OtherKeeps(g: NetConfig, n: Net, s: Step)
    requires Enabled(g, n, s) && (s.SendHello? || s.Duplicate? || s.StaleFailover? || s.WriteNodes?)
    ensures var n' := Next(g, n, s);
            && n'.hubs.Keys == n.hubs.Keys && (forall p :: p in n.wire ==> p in n'.wire)
            && forall h :: h in n.hubs ==> n'.hubs[h].seqNo == n.hubs[h].seqNo && n'.hubs[h].filters == n.hubs[h].filters
  {
  }

  lemma OtherCovers(g: NetConfig, n: Net, s: Step, o: NodeId, q: nat, spent: set<NodeId>)
    requires (forall id :: id in g.ids ==> id in n.hubs) && Covered(g, n, o, q, spent) && Enabled(g, n, s)
    requires s.SendHello? || s.Duplicate? || s.StaleFailover? || s.WriteNodes?
    ensures Next(g, n, s).hubs.Keys == n.hubs.Keys && Covered(g, Next(g, n, s), o, q, spent)
  {
    OtherKeeps(g, n, s);
    BackgroundCovers(g, n, Next(g, n, s), o, q, spent);
  }

  lemma OnlyDeliveriesSpend(g: NetConfig, n: Net, s: Step, o: NodeId, q: nat, spent: set<NodeId>)
    ensures !s.Deliver? ==> spent + SpentIn(g, n, s, o, q) == spent
  {
  }

  lemma NextCovers(g: NetConfig, n: Net, s: Step, o: NodeId, q: nat, spent: set<NodeId>)
    requires Good(g, n, o, q, spent) && Addressed(g)
    requires Enabled(g, n, s) && CleanStep(n, s, o, q) && Inv(g, Next(g, n, s))
    ensures Covered(g, Next(g, n, s), o, q, spent + SpentIn(g, n, s, o, q))
  {
    OnlyDeliveriesSpend(g, n, s, o, q, spent);
    if s.Originate? {
      OriginateCovers(g, n, s.h, s.startup, o, q, spent);
    } else if s.Deliver? {
      DeliverCovers(g, n, s.i, s.now, o, q, spent);
    } else if s.Lose? {
      LoseCovers(g, n, s.i, o, q, spent);
    } else {
      OtherCovers(g, n, s, o, q, spent);
    }
  }

  lemma NextGood(g: NetConfig, n: Net, s: Step, o: NodeId, q: nat, spent: set<NodeId>)
    requires Good(g, n, o, q, spent) && Addressed(g)
    requires Enabled(g, n, s) && CleanStep(n, s, o, q)
    ensures Good(g, Next(g, n, s), o, q, spent + SpentIn(g, n, s, o, q))
  {
    NextKeepsInv(g, n, s);
    NextCovers(g, n, s, o, q, spent);
  }

  lemma {:induction false} RunGood(g: NetConfig, n: Net, steps: seq<Step>, o: NodeId, q: nat, spent: set<NodeId>)
    requires Good(g, n, o, q, spent) && Addressed(g)
    requires ValidRun(g, n, steps) && CleanRun(g, n, steps, o, q)
    ensures Good(g, Run(g, n, steps), o, q, spent + Spent(g, n, steps, o, q))
    decreases |steps|
  {
    SpentUnfolds(g, n, steps, o, q, spent);
    if steps != [] {
      NextGood(g, n, steps[0], o, q, spent);
      RunGood(g, Next(g, n, steps[0]), steps[1..], o, q, spent + SpentIn(g, n, steps[0], o, q));
    }
  }

  lemma SpentUnfolds(g: NetConfig, n: Net, steps: seq<Step>, o: NodeId, q: nat, spent: set<NodeId>)
    requires ValidRun(g, n, steps)
    ensures steps == [] ==> spent + Spent(g, n, steps, o, q) == spent
    ensures steps != [] ==>
            spent + Spent(g, n, steps, o, q) ==
            spent + SpentIn(g, n, steps[0], o, q) + Spent(g, Next(g, n, steps[0]), steps[1..], o, q)
  {
  }

  // ----- No hub runs ahead of the origin -----

  /** Nothing of o in flight is newer than what o has sent. */
  ghost predicate Sent(n: Net, o: NodeId) {
    o in n.hubs && forall p :: p in n.wire && IsOgmOf(p.frame, o) ==> p.frame.ogm.seqNo <= n.hubs[o].seqNo
  }

  lemma DeliverSent(g: NetConfig, n: Net, i: nat, now: int, o: NodeId, q: Packet)
    requires Sent(n, o) && Enabled(g, n, Deliver(i, now)) && q in Next(g, n, Deliver(i, now)).wire
    ensures IsOgmOf(q.frame, o) ==> q.frame.ogm.seqNo <= n.hubs[o].seqNo
  {
    var p := n.wire[i];
    if q in Without(n.wire, i) {
      WithoutMembers(n.wire, i, q);
    } else {
      var floods := Received(g, n, i, now).floods;
      PostFloodsAre(g, p.to, floods, q);
      var f :| f in floods && q.frame.ogm == f.msg;
      FloodsAreForwarded(g.hub[p.to], n.hubs[p.to], MessageOf(p.frame), g.addrOf[p.from], now, f);
    }
  }

  lemma NextSent(g: NetConfig, n: Net, s: Step, o: NodeId)
    requires ConfigWf(g) && Sent(n, o) && Enabled(g, n, s)
    ensures Sent(Next(g, n, s), o) && n.hubs[o].seqNo <= Next(g, n, s).hubs[o].seqNo
  {
    var n' := Next(g, n, s);
    forall p | p in n'.wire && IsOgmOf(p.frame, o) ensures p.frame.ogm.seqNo <= n'.hubs[o].seqNo {
      if s.Deliver? {
        DeliverSent(g, n, s.i, s.now, o, p);
      } else if s.Originate? && p !in n.wire {
        PostFloodsAre(g, s.h, OgmHub.Originate(g.hub[s.h], n.hubs[s.h], s.startup).floods, p);
      } else if s.SendHello? && p !in n.wire {
        PostedToLinked(g, HelloFrame(s.h, s.sentAt), s.h, None, p);
      }
    }
    if s.Deliver? {
      DeliverEffect(g, n, s.i, s.now);
    }
  }

  /** A hub has of o what o has sent, or the number of a Hello. */
  ghost predicate Behind(n: Net, o: NodeId, hellos: set<nat>)
    requires o in n.hubs
  {
    forall x :: x in n.hubs && x != o && o in n.hubs[x].filters.lastSeq ==>
      n.hubs[x].filters.lastSeq[o] <= n.hubs[o].seqNo || n.hubs[x].filters.lastSeq[o] in hellos
  }

  lemma NextBehind(g: NetConfig, n: Net, s: Step, o: NodeId, hellos: set<nat>)
    requires ConfigWf(g) && Sent(n, o) && Behind(n, o, hellos) && Enabled(g, n, s)
    ensures Sent(Next(g, n, s), o) && Behind(Next(g, n, s), o, hellos + HelloIn(n, s, o))
  {
    NextSent(g, n, s, o);
    if s.Deliver? {
      DeliverEffect(g, n, s.i, s.now);
      var p := n.wire[s.i];
      assert p.frame.HelloFrame? && p.frame.nodeId == o && p.to != o ==> p.frame.sentAt in HelloIn(n, s, o);
    }
  }

  lemma {:induction false} RunBehind(g: NetConfig, n: Net, steps: seq<Step>, o: NodeId, hellos: set<nat>)
    requires ConfigWf(g) && Sent(n, o) && Behind(n, o, hellos) && ValidRun(g, n, steps)
    ensures Sent(Run(g, n, steps), o) && Behind(Run(g, n, steps), o, hellos + Hellos(g, n, steps, o))
    ensures n.hubs[o].seqNo <= Run(g, n, steps).hubs[o].seqNo
    ensures forall t :: t in Lost(g, n, steps, o) ==> t <= Run(g, n, steps).hubs[o].seqNo
    decreases |steps|
  {
    if steps == [] {
      assert hellos + Hellos(g, n, steps, o) == hellos;
    } else {
      var s, n' := steps[0], Next(g, n, steps[0]);
      NextBehind(g, n, s, o, hellos);
      NextSent(g, n, s, o);
      RunBehind(g, n', steps[1..], o, hellos + HelloIn(n, s, o));
      assert hellos + HelloIn(n, s, o) + Hellos(g, n', steps[1..], o) == hellos + Hellos(g, n, steps, o);
    }
  }

  // ----- Hellos stick -----

  /** Whoever is delivered a Hello of o is a neighbour of o, and has recorded its number from then on. */
  lemma HelloIsRecorded(g: NetConfig, n: Net, s: Step, o: NodeId, t: nat)
    requires ConfigWf(g) && Inv(g, n) && Enabled(g, n, s) && t in HelloIn(n, s, o)
    ensures var x := n.wire[s.i].to; x != o && Link(g, o, x) && HasSeen(Next(g, n, s), x, o, t)
  {
    var p := n.wire[s.i];
    assert PacketOk(g, n, p);
    var trail: seq<NodeId> :| Trail(g, n, MessageOf(p.frame), trail) && Last(trail) == p.from;
    assert trail[0] == p.from;
    DeliverEffect(g, n, s.i, s.now);
  }

  lemma {:induction false} HelloSticks(g: NetConfig, n: Net, steps: seq<Step>, o: NodeId, t: nat) returns (x: NodeId)
    requires ConfigWf(g) && Inv(g, n) && ValidRun(g, n, steps) && t in Hellos(g, n, steps, o)
    ensures x != o && Link(g, o, x) && HasSeen(Run(g, n, steps), x, o, t)
    decreases |steps|
  {
    var n' := Next(g, n, steps[0]);
    NextKeepsInv(g, n, steps[0]);
    if t in HelloIn(n, steps[0], o) {
      HelloIsRecorded(g, n, steps[0], o, t);
      x := n.wire[steps[0].i].to;
      RunRemembers(g, n', steps[1..], x, o, t);
    } else {
      x := HelloSticks(g, n', steps[1..], o, t);
    }
  }

  // ----- The theorems -----

  /** A chain of links starting at o. */
  ghost predicate Chain(g: NetConfig, o: NodeId, chain: seq<NodeId>) {
    && chain != [] && chain[0] == o
    && (forall x :: x in chain ==> x in g.ids)
    && forall i :: 0 <= i < |chain| - 1 ==> Link(g, chain[i], chain[i + 1])
  }

  /** Hub x has exactly o's latest sequence number. */
  predicate UpToDate(n: Net, o: NodeId, x: NodeId) {
    && o in n.hubs && x in n.hubs
    && o in n.hubs[x].filters.lastSeq && n.hubs[x].filters.lastSeq[o] == n.hubs[o].seqNo
  }

  /** o has sent something, and its latest OGM is no longer in flight. */
  ghost predicate Settled(n: Net, o: NodeId) {
    && o in n.hubs && n.hubs[o].seqNo >= 1
    && forall p :: p in n.wire ==> !Carries(p, o, n.hubs[o].seqNo)
  }

  lemma InitGood(g: NetConfig, o: NodeId, q: nat)
    requires ConfigWf(g) && o in g.ids && q >= 1
    ensures Good(g, Init(g), o, q, {})
  {
    InitInv(g);
  }

  /** What is asked of a run that ends with o's latest OGM settled: that OGM was never lost. Older OGMs of
      o may have been lost; other hubs may send, ping, lose and fail over at will; TTLs are any. */
  ghost predicate FloodRan(g: NetConfig, steps: seq<Step>, o: NodeId) {
    && ConfigWf(g) && Addressed(g) && o in g.ids
    && ValidRun(g, Init(g), steps) && Settled(Run(g, Init(g), steps), o)
    && Run(g, Init(g), steps).hubs[o].seqNo !in Lost(g, Init(g), steps, o)
  }

  /** o's OGM count is past every Hello of o that was delivered. */
  ghost predicate PastHellos(g: NetConfig, steps: seq<Step>, o: NodeId)
    requires ValidRun(g, Init(g), steps) && o in Run(g, Init(g), steps).hubs
  {
    forall t :: t in Hellos(g, Init(g), steps, o) ==> t < Run(g, Init(g), steps).hubs[o].seqNo
  }

  /** The hubs that accepted o's latest OGM with its time to live used up, and so did not pass it on. */
  ghost function SpentHubs(g: NetConfig, steps: seq<Step>, o: NodeId): set<NodeId>
    requires ValidRun(g, Init(g), steps) && o in Run(g, Init(g), steps).hubs
  {
    Spent(g, Init(g), steps, o, Run(g, Init(g), steps).hubs[o].seqNo)
  }

  lemma LostAreOlder(g: NetConfig, steps: seq<Step>, o: NodeId)
    requires FloodRan(g, steps, o)
    ensures forall t :: t in Lost(g, Init(g), steps, o) ==> t < Run(g, Init(g), steps).hubs[o].seqNo
  {
    RunBehind(g, Init(g), steps, o, {});
  }

  lemma NobodyIsAhead(g: NetConfig, steps: seq<Step>, o: NodeId, x: NodeId)
    requires FloodRan(g, steps, o) && PastHellos(g, steps, o) && x in Run(g, Init(g), steps).hubs && x != o
    ensures Level(Run(g, Init(g), steps), x, o) <= Run(g, Init(g), steps).hubs[o].seqNo
  {
    RunBehind(g, Init(g), steps, o, {});
  }

  lemma FloodIsGood(g: NetConfig, steps: seq<Step>, o: NodeId)
    requires FloodRan(g, steps, o) && PastHellos(g, steps, o)
    ensures Good(g, Run(g, Init(g), steps), o, Run(g, Init(g), steps).hubs[o].seqNo, SpentHubs(g, steps, o))
  {
    var latest := Run(g, Init(g), steps).hubs[o].seqNo;
    InitGood(g, o, latest);
    LostAreOlder(g, steps, o);
    RunIsClean(g, Init(g), steps, o, latest);
    RunGood(g, Init(g), steps, o, latest, {});
    assert {} + SpentHubs(g, steps, o) == SpentHubs(g, steps, o);
  }

  /** After such a run every link carries o's latest number on, except out of a spent hub; and nobody is
      ahead of o. */
  lemma LinksPassOn(g: NetConfig, steps: seq<Step>, o: NodeId, y: NodeId, x: NodeId)
    requires FloodRan(g, steps, o) && PastHellos(g, steps, o)
    requires Link(g, y, x) && x != o && y !in SpentHubs(g, steps, o)
    requires y == o || UpToDate(Run(g, Init(g), steps), o, y)
    ensures UpToDate(Run(g, Init(g), steps), o, x)
  {
    var n := Run(g, Init(g), steps);
    FloodIsGood(g, steps, o);
    LinkedIsHub(g, y, x);
    NobodyIsAhead(g, steps, o, x);
    assert Passed(n, o, n.hubs[o].seqNo, y, x);
  }

  /** Then o's latest number has reached the end of every chain of links without a spent hub on the way: a
      hub within reach that is out of date lies behind a spent one on every chain. */
  lemma {:induction false} FloodReachesAlongChain(g: NetConfig, steps: seq<Step>, o: NodeId, chain: seq<NodeId>)
    requires FloodRan(g, steps, o) && PastHellos(g, steps, o) && Chain(g, o, chain)
    requires forall i :: 0 <= i < |chain| - 1 ==> chain[i] !in SpentHubs(g, steps, o)
    ensures Last(chain) == o || UpToDate(Run(g, Init(g), steps), o, Last(chain))
    decreases |chain|
  {
    if |chain| > 1 && Last(chain) != o {
      FloodReachesAlongChain(g, steps, o, chain[..|chain| - 1]);
      LinksPassOn(g, steps, o, chain[|chain| - 2], Last(chain));
    }
  }

  ghost predicate AllUpToDate(g: NetConfig, n: Net, o: NodeId) {
    forall chain: seq<NodeId> :: Chain(g, o, chain) && Last(chain) != o ==> UpToDate(n, o, Last(chain))
  }

  /** Whoever a spent hub links to has o's latest number from elsewhere. */
  ghost predicate SpentAreNoLoss(g: NetConfig, steps: seq<Step>, o: NodeId)
    requires ValidRun(g, Init(g), steps) && o in Run(g, Init(g), steps).hubs
  {
    forall y, x :: y in SpentHubs(g, steps, o) && Link(g, y, x) && x != o ==> UpToDate(Run(g, Init(g), steps), o, x)
  }

  lemma {:induction false} ChainIsUpToDate(g: NetConfig, steps: seq<Step>, o: NodeId, chain: seq<NodeId>)
    requires FloodRan(g, steps, o) && PastHellos(g, steps, o) && SpentAreNoLoss(g, steps, o) && Chain(g, o, chain)
    ensures Last(chain) == o || UpToDate(Run(g, Init(g), steps), o, Last(chain))
    decreases |chain|
  {
    if |chain| > 1 && Last(chain) != o {
      var y := chain[|chain| - 2];
      ChainIsUpToDate(g, steps, o, chain[..|chain| - 1]);
      assert Link(g, y, Last(chain));
      if y !in SpentHubs(g, steps, o) {
        LinksPassOn(g, steps, o, y, Last(chain));
      }
    }
  }

  /** The exact condition, for any TTL. Leaving aside a Hello that happens to carry the very number of the
      latest OGM, all reachable hubs are up to date if and only if o's OGM count is past every Hello of o that
      was delivered, and no hub was missed by a neighbour that got the OGM with its time to live used up. */
  lemma FloodReachesExactly(g: NetConfig, steps: seq<Step>, o: NodeId)
    requires FloodRan(g, steps, o)
    requires Run(g, Init(g), steps).hubs[o].seqNo !in Hellos(g, Init(g), steps, o)
    ensures AllUpToDate(g, Run(g, Init(g), steps), o) <==> PastHellos(g, steps, o) && SpentAreNoLoss(g, steps, o)
  {
    var n := Run(g, Init(g), steps);
    if !PastHellos(g, steps, o) {
      var t :| t in Hellos(g, Init(g), steps, o) && t > n.hubs[o].seqNo;
      HelloLeavesBehind(g, steps, o, t);
    } else if SpentAreNoLoss(g, steps, o) {
      forall chain: seq<NodeId> | Chain(g, o, chain) && Last(chain) != o ensures UpToDate(n, o, Last(chain)) {
        ChainIsUpToDate(g, steps, o, chain);
      }
    } else {
      var y, x :| y in SpentHubs(g, steps, o) && Link(g, y, x) && x != o && !UpToDate(n, o, x);
      var chain := BehindSpent(g, steps, o, y, x);
      assert Last(chain) == x;
    }
  }

  lemma BehindSpent(g: NetConfig, steps: seq<Step>, o: NodeId, y: NodeId, x: NodeId) returns (chain: seq<NodeId>)
    requires ConfigWf(g) && ValidRun(g, Init(g), steps) && o in Run(g, Init(g), steps).hubs
    requires y in SpentHubs(g, steps, o) && Link(g, y, x)
    ensures Chain(g, o, chain) && Last(chain) == x
  {
    InitInv(g);
    var shorter := SpentIsReachable(g, Init(g), steps, o, Run(g, Init(g), steps).hubs[o].seqNo, y);
    LinkedIsHub(g, y, x);
    ExtendChain(g, o, shorter, x);
    chain := shorter + [x];
  }

  lemma ExtendChain(g: NetConfig, o: NodeId, chain: seq<NodeId>, x: NodeId)
    requires Chain(g, o, chain) && x in g.ids && Link(g, Last(chain), x)
    ensures Chain(g, o, chain + [x]) && Last(chain + [x]) == x
  {
  }

  lemma AcceptorIsReachable(g: NetConfig, n: Net, s: Step, o: NodeId, q: nat, y: NodeId) returns (chain: seq<NodeId>)
    requires ConfigWf(g) && WireOk(g, n) && y in SpentIn(g, n, s, o, q)
    ensures Chain(g, o, chain) && Last(chain) == y
  {
    var p := n.wire[s.i];
    assert p in n.wire && PacketOk(g, n, p);
    var trail: seq<NodeId> :| Trail(g, n, MessageOf(p.frame), trail) && Last(trail) == p.from;
    chain := trail + [y];
  }

  /** A spent hub is at the end of the trail of what it accepted. */
  lemma {:induction false} SpentIsReachable(g: NetConfig, n: Net, steps: seq<Step>, o: NodeId, q: nat, y: NodeId)
    returns (chain: seq<NodeId>)
    requires ConfigWf(g) && Inv(g, n) && ValidRun(g, n, steps) && y in Spent(g, n, steps, o, q)
    ensures Chain(g, o, chain) && Last(chain) == y
    decreases |steps|
  {
    if y in SpentIn(g, n, steps[0], o, q) {
      chain := AcceptorIsReachable(g, n, steps[0], o, q, y);
    } else {
      NextKeepsInv(g, n, steps[0]);
      chain := SpentIsReachable(g, Next(g, n, steps[0]), steps[1..], o, q, y);
    }
  }

  /** A delivered Hello above o's count leaves a neighbour of o out of date. */
  lemma HelloLeavesBehind(g: NetConfig, steps: seq<Step>, o: NodeId, t: nat)
    requires ConfigWf(g) && ValidRun(g, Init(g), steps) && o in Run(g, Init(g), steps).hubs
    requires t in Hellos(g, Init(g), steps, o) && t > Run(g, Init(g), steps).hubs[o].seqNo
    ensures !AllUpToDate(g, Run(g, Init(g), steps), o)
  {
    InitInv(g);
    var x := HelloSticks(g, Init(g), steps, o, t);
    LinkedIsHub(g, o, x);
    assert Chain(g, o, [o, x]) && Last([o, x]) == x;
    assert !UpToDate(Run(g, Init(g), steps), o, x);
  }

  // ----- Routes -----

  /** The hub has a route to every other origin it has heard of. */
  ghost predicate RoutesHeard(n: Net, x: NodeId) {
    x in n.hubs && forall o :: o in n.hubs[x].filters.lastSeq ==> o in n.hubs[x].tables.routes
  }

  /** Only a failover can take away the route to an origin a hub has heard of: on every other run,
      losses and Hellos included, a hub that is up to date also has a route. */
  lemma {:induction false} HeardIsRouted(g: NetConfig, n: Net, steps: seq<Step>, x: NodeId)
    requires RoutesHeard(n, x) && ValidRun(g, n, steps)
    requires forall s :: s in steps && s.StaleFailover? ==> s.h != x
    ensures RoutesHeard(Run(g, n, steps), x)
    decreases |steps|
  {
    if steps != [] {
      if steps[0].Deliver? {
        DeliverEffect(g, n, steps[0].i, steps[0].now);
      }
      assert steps[0] in steps;
      HeardIsRouted(g, Next(g, n, steps[0]), steps[1..], x);
    }
  }
}
