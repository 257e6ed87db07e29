/** Flooding ends, and no sequence number is flooded more than a fixed number of times. */
module OgmFlood {
  import opened Mesh
  import opened OgmHub
  import opened OgmNetwork
  import opened OgmPaths

  // ----- Termination -----

  function Pow(base: nat, exp: nat): nat {
    if exp == 0 then 1 else base * Pow(base, exp - 1)
  }

  function TtlOf(p: Packet): nat {
    MessageOf(p.frame).ttl
  }

  /** How much flooding the packets in flight can still cause. */
  function Potential(base: nat, wire: seq<Packet>): nat {
    if wire == [] then 0 else Pow(base, TtlOf(wire[0])) + Potential(base, wire[1..])
  }

  /** No hub has more than `most` peers. */
  ghost predicate PeersWithin(g: NetConfig, most: nat) {
    forall h :: h in g.hub ==> |g.hub[h].peers| <= most
  }

  lemma {:induction false} PotentialConcat(base: nat, a: seq<Packet>, b: seq<Packet>)
    ensures Potential(base, a + b) == Potential(base, a) + Potential(base, b)
  {
    if a == [] {
      assert a + b == b;
    } else {
      assert (a + b)[1..] == a[1..] + b;
      PotentialConcat(base, a[1..], b);
    }
  }

  lemma PotentialWithout(base: nat, wire: seq<Packet>, i: nat)
    requires i < |wire|
    ensures Potential(base, wire) == Potential(base, Without(wire, i)) + Pow(base, TtlOf(wire[i]))
  {
    assert wire == wire[..i] + ([wire[i]] + wire[i + 1..]);
    PotentialConcat(base, wire[..i], [wire[i]] + wire[i + 1..]);
    PotentialConcat(base, [wire[i]], wire[i + 1..]);
    PotentialConcat(base, wire[..i], wire[i + 1..]);
    assert Potential(base, [wire[i]]) == Pow(base, TtlOf(wire[i]));
  }

  lemma {:induction false} PotentialUniform(base: nat, ps: seq<Packet>, ttl: nat)
    requires forall p :: p in ps ==> TtlOf(p) == ttl
    ensures Potential(base, ps) == |ps| * Pow(base, ttl)
  {
    if ps != [] {
      PotentialUniform(base, ps[1..], ttl);
      assert TtlOf(ps[0]) == ttl;
      assert |ps| * Pow(base, ttl) == Pow(base, ttl) + (|ps| - 1) * Pow(base, ttl);
    }
  }

  lemma {:induction false} PowPositive(base: nat, exp: nat)
    requires base >= 1
    ensures Pow(base, exp) >= 1
  {
    if exp > 0 {
      PowPositive(base, exp - 1);
    }
  }

  /** One delivery causes at most two floods, each of packets with one hop less to live. */
  lemma DeliverSends(g: NetConfig, n: Net, i: nat, now: int, q: Packet)
    requires Enabled(g, n, Deliver(i, now))
    requires q in PostFloods(g, n.wire[i].to, Received(g, n, i, now).floods)
    ensures TtlOf(n.wire[i]) > 0 && TtlOf(q) == TtlOf(n.wire[i]) - 1
  {
    var p := n.wire[i];
    var floods := Received(g, n, i, now).floods;
    PostFloodsAre(g, p.to, floods, q);
    var f :| f in floods && q.frame.ogm == f.msg;
    FloodsAreForwarded(g.hub[p.to], n.hubs[p.to], MessageOf(p.frame), g.addrOf[p.from], now, f);
  }

  lemma DeliverSendsFew(g: NetConfig, n: Net, i: nat, now: int, most: nat)
    requires Enabled(g, n, Deliver(i, now)) && PeersWithin(g, most)
    ensures |PostFloods(g, n.wire[i].to, Received(g, n, i, now).floods)| <= 2 * most
  {
    var h := n.wire[i].to;
    var floods := Received(g, n, i, now).floods;
    AtMostTwoFloods(g.hub[h], n.hubs[h], MessageOf(n.wire[i].frame), g.addrOf[n.wire[i].from], now);
    PostFloodsCount(g, h, floods);
    Product(|floods|, 2, |g.hub[h].peers|, most);
  }

  lemma AtMostTwoFloods(c: HubConfig, h: HubState, m: Ogm, from: Addr, now: int)
    ensures |HandleOgm(c, h, m, from, now).floods| <= 2
  {
  }

  lemma Product(a: nat, a': nat, b: nat, b': nat)
    requires a <= a' && b <= b'
    ensures a * b <= a' * b'
  {
    assert a * b <= a' * b && a' * b <= a' * b';
  }

  lemma Outweighs(k: nat, most: nat, w: nat)
    requires k <= 2 * most && w >= 1
    ensures k * w < (2 * most + 1) * w
  {
    Product(k, 2 * most, w, w);
    assert (2 * most + 1) * w == 2 * most * w + w;
  }

  /** The copy a delivery consumes outweighs all it causes. */
  lemma SentWeighsLess(g: NetConfig, n: Net, i: nat, now: int, most: nat)
    requires Enabled(g, n, Deliver(i, now)) && PeersWithin(g, most)
    ensures Potential(2 * most + 1, PostFloods(g, n.wire[i].to, Received(g, n, i, now).floods))
            < Pow(2 * most + 1, TtlOf(n.wire[i]))
  {
    var base := 2 * most + 1;
    var ttl := TtlOf(n.wire[i]);
    var sent := PostFloods(g, n.wire[i].to, Received(g, n, i, now).floods);
    PowPositive(base, ttl);
    if sent != [] {
      forall q | q in sent ensures ttl > 0 && TtlOf(q) == ttl - 1 {
        DeliverSends(g, n, i, now, q);
      }
      assert sent[0] in sent;
      PotentialUniform(base, sent, ttl - 1);
      DeliverSendsFew(g, n, i, now, most);
      PowPositive(base, ttl - 1);
      Outweighs(|sent|, most, Pow(base, ttl - 1));
    }
  }

  /** Each delivery strictly lowers the potential. */
  lemma DeliverDecreases(g: NetConfig, n: Net, i: nat, now: int, most: nat)
    requires Enabled(g, n, Deliver(i, now)) && PeersWithin(g, most)
    ensures Potential(2 * most + 1, Next(g, n, Deliver(i, now)).wire) < Potential(2 * most + 1, n.wire)
  {
    var base := 2 * most + 1;
    var sent := PostFloods(g, n.wire[i].to, Received(g, n, i, now).floods);
    PotentialWithout(base, n.wire, i);
    PotentialConcat(base, Without(n.wire, i), sent);
    SentWeighsLess(g, n, i, now, most);
  }

  /** Steps that put nothing new on the wire of their own accord. */
  predicate Quiet(s: Step) {
    s.Deliver? || s.Lose? || s.StaleFailover? || s.WriteNodes?
  }

  function Consumed(steps: seq<Step>): nat {
    if steps == [] then 0 else (if steps[0].Deliver? || steps[0].Lose? then 1 else 0) + Consumed(steps[1..])
  }

  /** Without new originations and without duplication, flooding dies out: the number of packets
      ever consumed, including all that floods add on the way, is bounded by the potential of what
      was in flight at the start. */
  lemma {:induction false} FloodingDiesOut(g: NetConfig, n: Net, steps: seq<Step>, most: nat)
    requires PeersWithin(g, most) && ValidRun(g, n, steps)
    requires forall s :: s in steps ==> Quiet(s)
    ensures Consumed(steps) + Potential(2 * most + 1, Run(g, n, steps).wire) <= Potential(2 * most + 1, n.wire)
    decreases |steps|
  {
    if steps != [] {
      var base := 2 * most + 1;
      assert Quiet(steps[0]);
      match steps[0] {
        case Deliver(i, now) => DeliverDecreases(g, n, i, now, most);
        case Lose(i) =>
          PotentialWithout(base, n.wire, i);
          PowPositive(base, TtlOf(n.wire[i]));
        case _ =>
      }
      FloodingDiesOut(g, Next(g, n, steps[0]), steps[1..], most);
    }
  }

  // ----- How often one sequence number is flooded -----

  function CountFor(floods: seq<Flood>, o: NodeId, q: nat): nat {
    if floods == [] then 0
    else (if floods[0].msg.nodeId == o && floods[0].msg.seqNo == q then 1 else 0) + CountFor(floods[1..], o, q)
  }

  /** Floods of (o, q) performed by hub h in one step. */
  function FloodsBy(g: NetConfig, n: Net, s: Step, h: NodeId, o: NodeId, q: nat): nat
    requires Enabled(g, n, s)
  {
    var (actor, floods) := FloodsIn(g, n, s);
    if actor == h then CountFor(floods, o, q) else 0
  }

  function FloodCount(g: NetConfig, n: Net, steps: seq<Step>, h: NodeId, o: NodeId, q: nat): nat
    requires ValidRun(g, n, steps)
    decreases |steps|
  {
    if steps == [] then 0
    else FloodsBy(g, n, steps[0], h, o, q) + FloodCount(g, Next(g, n, steps[0]), steps[1..], h, o, q)
  }

  /** What hub h may still flood of (o, q). */
  function Allowance(n: Net, h: NodeId, o: NodeId, q: nat): nat {
    if h == o then (if h in n.hubs && n.hubs[h].seqNo >= q then 0 else 1)
    else (if HasSeen(n, h, o, q) then 0 else 2)
  }

  lemma {:induction false} CountForBound(floods: seq<Flood>, o: NodeId, q: nat)
    ensures CountFor(floods, o, q) <= |floods|
    ensures CountFor(floods, o, q) > 0 ==> exists f :: f in floods && f.msg.nodeId == o && f.msg.seqNo == q
  {
    if floods != [] {
      CountForBound(floods[1..], o, q);
    }
  }

  lemma DeliverSpends(g: NetConfig, n: Net, i: nat, now: int, o: NodeId, q: nat)
    requires ConfigWf(g) && Enabled(g, n, Deliver(i, now))
    ensures var h := n.wire[i].to;
            CountFor(Received(g, n, i, now).floods, o, q) + Allowance(Next(g, n, Deliver(i, now)), h, o, q)
            <= Allowance(n, h, o, q)
  {
    var p := n.wire[i];
    var m := MessageOf(p.frame);
    var c, h, from := g.hub[p.to], n.hubs[p.to], g.addrOf[p.from];
    var floods := Received(g, n, i, now).floods;
    NextRemembers(g, n, Deliver(i, now));
    CountForBound(floods, o, q);
    if CountFor(floods, o, q) > 0 {
      var f :| f in floods && f.msg.nodeId == o && f.msg.seqNo == q;
      FloodsAreForwarded(c, h, m, from, now, f);
      AtMostTwoFloods(c, h, m, from, now);
      DeliverRecords(g, n, i, now);
      assert !HasSeen(n, p.to, o, q);
    }
  }

  lemma StepSpends(g: NetConfig, n: Net, s: Step, h: NodeId, o: NodeId, q: nat)
    requires ConfigWf(g) && Enabled(g, n, s)
    ensures FloodsBy(g, n, s, h, o, q) + Allowance(Next(g, n, s), h, o, q) <= Allowance(n, h, o, q)
  {
    NextRemembers(g, n, s);
    match s
    case Originate(actor, startup) =>
      var floods := OgmHub.Originate(g.hub[actor], n.hubs[actor], startup).floods;
      assert floods[1..] == [];
      assert CountFor(floods, o, q) == if actor == o && n.hubs[actor].seqNo + 1 == q then 1 else 0;
    case Deliver(i, now) =>
      if n.wire[i].to == h {
        DeliverSpends(g, n, i, now, o, q);
      }
    case _ =>
  }

  /** Over any run from any state, under loss and duplication, a hub floods one sequence number
      of another hub at most twice, and not at all once it has recorded it; its own, at most once. */
  lemma {:induction false} FloodsAreBounded(g: NetConfig, n: Net, steps: seq<Step>, h: NodeId, o: NodeId, q: nat)
    requires ConfigWf(g) && ValidRun(g, n, steps)
    ensures FloodCount(g, n, steps, h, o, q) <= Allowance(n, h, o, q)
    decreases |steps|
  {
    if steps != [] {
      StepSpends(g, n, steps[0], h, o, q);
      FloodsAreBounded(g, Next(g, n, steps[0]), steps[1..], h, o, q);
    }
  }

  // ----- How many packets are sent for it -----

  function CountPackets(ps: seq<Packet>, o: NodeId, q: nat): nat {
    if ps == [] then 0
    else (if ps[0].frame.OgmFrame? && ps[0].frame.ogm.nodeId == o && ps[0].frame.ogm.seqNo == q then 1 else 0) +
         CountPackets(ps[1..], o, q)
  }

  /** OGM packets for (o, q) that hubs send during a run; copies made by UDP are not sent. */
  function SentFor(g: NetConfig, n: Net, steps: seq<Step>, o: NodeId, q: nat): nat
    requires ValidRun(g, n, steps)
    requires forall h :: h in n.hubs ==> h in g.hub
    decreases |steps|
  {
    if steps == [] then 0
    else
      var (actor, floods) := FloodsIn(g, n, steps[0]);
      (if floods == [] then 0 else CountPackets(PostFloods(g, actor, floods), o, q)) +
      SentFor(g, Next(g, n, steps[0]), steps[1..], o, q)
  }

  /** The packets hubs may still send for (o, q), summed over the listed hubs. */
  function Remaining(g: NetConfig, n: Net, ids: seq<NodeId>, o: NodeId, q: nat): nat
    requires forall h :: h in ids ==> h in g.hub
  {
    if ids == [] then 0
    else Allowance(n, ids[0], o, q) * |g.hub[ids[0]].peers| + Remaining(g, n, ids[1..], o, q)
  }

  lemma {:induction false} CountPacketsConcat(a: seq<Packet>, b: seq<Packet>, o: NodeId, q: nat)
    ensures CountPackets(a + b, o, q) == CountPackets(a, o, q) + CountPackets(b, o, q)
  {
    if a == [] {
      assert a + b == b;
    } else {
      assert (a + b)[1..] == a[1..] + b;
      CountPacketsConcat(a[1..], b, o, q);
    }
  }

  lemma {:induction false} CountPacketsUniform(ps: seq<Packet>, m: Ogm, o: NodeId, q: nat)
    requires forall p :: p in ps ==> p.frame == OgmFrame(m)
    ensures CountPackets(ps, o, q) == if m.nodeId == o && m.seqNo == q then |ps| else 0
  {
    if ps != [] {
      assert ps[0].frame == OgmFrame(m);
      CountPacketsUniform(ps[1..], m, o, q);
    }
  }

  lemma PostFloodFor(g: NetConfig, h: NodeId, f: Flood, o: NodeId, q: nat)
    requires h in g.hub
    ensures CountPackets(PostFlood(g, h, f), o, q) <=
            if f.msg.nodeId == o && f.msg.seqNo == q then |g.hub[h].peers| else 0
  {
    var peers, ok := g.hub[h].peers, g.hub[h].resolvable;
    FloodTargetsAre(peers, ok, f.except);
    PostAre(g, OgmFrame(f.msg), h, FloodTargets(peers, ok, f.except));
    CountPacketsUniform(PostFlood(g, h, f), f.msg, o, q);
  }

  lemma {:induction false} PostFloodsFor(g: NetConfig, h: NodeId, floods: seq<Flood>, o: NodeId, q: nat)
    requires h in g.hub
    ensures CountPackets(PostFloods(g, h, floods), o, q) <= CountFor(floods, o, q) * |g.hub[h].peers|
  {
    if floods != [] {
      PostFloodFor(g, h, floods[0], o, q);
      CountPacketsConcat(PostFlood(g, h, floods[0]), PostFloods(g, h, floods[1..]), o, q);
      PostFloodsFor(g, h, floods[1..], o, q);
      var k, rest := |g.hub[h].peers|, CountFor(floods[1..], o, q);
      assert (1 + rest) * k == k + rest * k;
    }
  }

  /** If no allowance grows and hub `actor` gives up `spent`, the remaining total drops accordingly. */
  lemma {:induction false} RemainingDrops(g: NetConfig, n: Net, n': Net, ids: seq<NodeId>, o: NodeId, q: nat,
                                          actor: NodeId, spent: nat)
    requires forall h :: h in ids ==> h in g.hub
    requires forall h :: h in ids ==> Allowance(n', h, o, q) + (if h == actor then spent else 0) <= Allowance(n, h, o, q)
    ensures Remaining(g, n', ids, o, q) <= Remaining(g, n, ids, o, q)
    ensures actor in ids ==>
            Remaining(g, n', ids, o, q) + spent * |g.hub[actor].peers| <= Remaining(g, n, ids, o, q)
  {
    if ids != [] {
      var h := ids[0];
      var k := |g.hub[h].peers|;
      RemainingDrops(g, n, n', ids[1..], o, q, actor, spent);
      var drop := if h == actor then spent else 0;
      Product(Allowance(n', h, o, q) + drop, Allowance(n, h, o, q), k, k);
      assert (Allowance(n', h, o, q) + drop) * k == Allowance(n', h, o, q) * k + drop * k;
    }
  }

  lemma StepSendsWithin(g: NetConfig, n: Net, s: Step, o: NodeId, q: nat)
    requires ConfigWf(g) && Enabled(g, n, s)
    ensures var (actor, floods) := FloodsIn(g, n, s);
            && (floods != [] ==> actor in g.hub)
            && (if floods == [] then 0 else CountPackets(PostFloods(g, actor, floods), o, q)) +
               Remaining(g, Next(g, n, s), g.ids, o, q) <= Remaining(g, n, g.ids, o, q)
  {
    var (actor, floods) := FloodsIn(g, n, s);
    forall h | h in g.ids
      ensures Allowance(Next(g, n, s), h, o, q) + (if h == actor then CountFor(floods, o, q) else 0)
              <= Allowance(n, h, o, q)
    {
      StepSpends(g, n, s, h, o, q);
    }
    RemainingDrops(g, n, Next(g, n, s), g.ids, o, q, actor, CountFor(floods, o, q));
    if floods != [] {
      PostFloodsFor(g, actor, floods, o, q);
    }
  }

  lemma {:induction false} SentIsBounded(g: NetConfig, n: Net, steps: seq<Step>, o: NodeId, q: nat)
    requires ConfigWf(g) && ValidRun(g, n, steps)
    requires forall h :: h in n.hubs ==> h in g.hub
    ensures SentFor(g, n, steps, o, q) <= Remaining(g, n, g.ids, o, q)
    decreases |steps|
  {
    if steps != [] {
      StepSendsWithin(g, n, steps[0], o, q);
      SentIsBounded(g, Next(g, n, steps[0]), steps[1..], o, q);
    }
  }

  /** The bound in closed form: peers of the origin, plus twice the peers of every other hub. */
  function MeshBound(g: NetConfig, ids: seq<NodeId>, o: NodeId): nat
    requires forall h :: h in ids ==> h in g.hub
  {
    if ids == [] then 0
    else (if ids[0] == o then 1 else 2) * |g.hub[ids[0]].peers| + MeshBound(g, ids[1..], o)
  }

  lemma {:induction false} InitialRemaining(g: NetConfig, ids: seq<NodeId>, o: NodeId, q: nat)
    requires ConfigWf(g) && forall h :: h in ids ==> h in g.ids
    ensures Remaining(g, Init(g), ids, o, q) <= MeshBound(g, ids, o)
  {
    if ids != [] {
      InitialRemaining(g, ids[1..], o, q);
      var k := |g.hub[ids[0]].peers|;
      Product(Allowance(Init(g), ids[0], o, q), if ids[0] == o then 1 else 2, k, k);
    }
  }

  /** On every run from the empty network, at most one packet per peer of the origin and two per
      peer of every other hub is ever sent for one (origin, sequence number), however often UDP
      duplicates what is in flight. */
  lemma PacketsPerSequence(g: NetConfig, steps: seq<Step>, o: NodeId, q: nat)
    requires ConfigWf(g) && ValidRun(g, Init(g), steps)
    ensures SentFor(g, Init(g), steps, o, q) <= MeshBound(g, g.ids, o)
  {
    SentIsBounded(g, Init(g), steps, o, q);
    InitialRemaining(g, g.ids, o, q);
  }

  // ----- Sequence numbers -----

  /** The step makes hub h accept sequence number q of origin o. */
  predicate AcceptedBy(g: NetConfig, n: Net, s: Step, h: NodeId, o: NodeId, q: nat) {
    && s.Deliver? && Enabled(g, n, s) && n.wire[s.i].to == h
    && MessageOf(n.wire[s.i].frame).nodeId == o && MessageOf(n.wire[s.i].frame).seqNo == q
    && Accepts(g.hub[h], n.hubs[h], MessageOf(n.wire[s.i].frame))
  }

  /** Between any two acceptances of one origin by one hub, however far apart, the sequence
      number strictly increases. */
  lemma AcceptedSequencesIncrease(g: NetConfig, n: Net, s: Step, between: seq<Step>, t: Step,
                                  h: NodeId, o: NodeId, q: nat, q': nat)
    requires AcceptedBy(g, n, s, h, o, q)
    requires ValidRun(g, Next(g, n, s), between)
    requires AcceptedBy(g, Run(g, Next(g, n, s), between), t, h, o, q')
    ensures q < q'
  {
    DeliverRecords(g, n, s.i, s.now);
    RunRemembers(g, Next(g, n, s), between, h, o, q);
  }

  /** What a Hello does: once one sent at time T reaches another hub, that hub never again floods,
      in any continuation, an OGM of the sender numbered T or less. OGM numbers count up from 1
      while T is a time in milliseconds, so the sender's OGMs stop there. */
  lemma HelloSilencesOrigin(g: NetConfig, n: Net, i: nat, now: int, rest: seq<Step>, q: nat)
    requires ConfigWf(g) && Enabled(g, n, Deliver(i, now))
    requires n.wire[i].frame.HelloFrame? && n.wire[i].frame.nodeId != n.wire[i].to
    requires ValidRun(g, Next(g, n, Deliver(i, now)), rest) && q <= n.wire[i].frame.sentAt
    ensures FloodCount(g, Next(g, n, Deliver(i, now)), rest, n.wire[i].to, n.wire[i].frame.nodeId, q) == 0
  {
    var p := n.wire[i];
    var n' := Next(g, n, Deliver(i, now));
    assert HasSeen(n', p.to, p.frame.nodeId, q);
    FloodsAreBounded(g, n', rest, p.to, p.frame.nodeId, q);
  }
}
