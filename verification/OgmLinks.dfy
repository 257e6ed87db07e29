/** Link quality, read off the messages a hub has heard: who is credited with a message, what is counted, and
    the quality of the route that comes of it (hub/internal/ogmengine/ogmengine.go). */
module OgmLinks {
  import opened Mesh
  import opened Routing
  import opened OgmHub
  import opened OgmHubFacts
  import opened OgmNetwork
  import opened OgmPaths

  /** One message as it arrives; nothing is assumed about it. */
  datatype Heard = Heard(msg: Ogm, from: Addr, now: int)

  /** The hub after it has handled all these messages. */
  function HearAll(c: HubConfig, heard: seq<Heard>): HubState
    decreases |heard|
  {
    if heard == [] then EMPTY_HUB
    else
      var last := heard[|heard| - 1];
      HandleOgm(c, HearAll(c, heard[..|heard| - 1]), last.msg, last.from, last.now).hub
  }

  // ----- What the messages themselves say -----

  /** The origin of the latest foreign message that came straight from this address. */
  function Speaker(self: NodeId, heard: seq<Heard>, from: Addr): Option<NodeId>
    decreases |heard|
  {
    if heard == [] then None
    else
      var last := heard[|heard| - 1];
      if last.from == from && last.msg.nodeId != self && last.msg.hopCount == 0 && last.msg.lastHop.None?
      then Some(last.msg.nodeId)
      else Speaker(self, heard[..|heard| - 1], from)
  }

  /** The neighbour that sent a message: the one it names; or its origin, if a foreign message came straight
      from there; or whoever last spoke from the address, if anybody did. */
  function Sender(self: NodeId, before: seq<Heard>, m: Ogm, from: Addr): NodeId {
    if m.lastHop.Some? then m.lastHop.value
    else if m.nodeId != self && m.hopCount == 0 then m.nodeId
    else match Speaker(self, before, from) case Some(id) => id case None => m.nodeId
  }

  /** The foreign messages that neighbour n sent, duplicates included. */
  function Receptions(self: NodeId, heard: seq<Heard>, n: NodeId): nat
    decreases |heard|
  {
    if heard == [] then 0
    else
      var before, last := heard[..|heard| - 1], heard[|heard| - 1];
      Receptions(self, before, n) +
      if last.msg.nodeId != self && Sender(self, before, last.msg, last.from) == n then 1 else 0
  }

  /** The hub's own messages that came back through neighbour n. */
  function Echoes(self: NodeId, heard: seq<Heard>, n: NodeId): nat
    decreases |heard|
  {
    if heard == [] then 0
    else
      var before, last := heard[..|heard| - 1], heard[|heard| - 1];
      Echoes(self, before, n) +
      if last.msg.nodeId == self && last.msg.hopCount > 0 && Sender(self, before, last.msg, last.from) == n then 1 else 0
  }

  /** A 32-bit counter after k increments. */
  function Ticks(k: nat): nat {
    if k == 0 then 0 else Inc32(Ticks(k - 1))
  }

  lemma CountWraps(k: nat)
    ensures Inc32(k % U32) == (k + 1) % U32
  {
  }

  lemma {:induction false} TicksWrap(k: nat)
    ensures Ticks(k) == k % U32
  {
    if k > 0 {
      TicksWrap(k - 1);
      CountWraps(k - 1);
    }
  }

  function Plus(k: nat, more: bool): nat {
    if more then Inc32(k) else k
  }

  /** What one message adds to the counters. */
  lemma MessageCounts(c: HubConfig, h: HubState, m: Ogm, from: Addr, now: int, n: NodeId)
    ensures var l, l' := h.links, HandleOgm(c, h, m, from, now).hub.links;
            && Count(l'.linkRQ, n) == Plus(Count(l.linkRQ, n), m.nodeId != c.self && Credited(l, m, from) == n)
            && Count(l'.linkEQ, n) ==
               Plus(Count(l.linkEQ, n), m.nodeId == c.self && m.hopCount > 0 && ResolveForwarder(l, m, from) == n)
  {
    var l, l' := h.links, HandleOgm(c, h, m, from, now).hub.links;
    assert l' == if m.nodeId == c.self then Echoed(l, m, from) else Counted(l, m, from);
  }

  lemma MessageNamesPeer(c: HubConfig, h: HubState, m: Ogm, from: Addr, now: int, a: Addr)
    ensures var l, l' := h.links, HandleOgm(c, h, m, from, now).hub.links;
            if m.nodeId != c.self && m.hopCount == 0 && m.lastHop.None? && a == from
            then a in l'.peerByAddr && l'.peerByAddr[a] == m.nodeId
            else (a in l'.peerByAddr <==> a in l.peerByAddr) && (a in l.peerByAddr ==> l'.peerByAddr[a] == l.peerByAddr[a])
  {
    var l, l' := h.links, HandleOgm(c, h, m, from, now).hub.links;
    assert l' == if m.nodeId == c.self then Echoed(l, m, from) else Counted(l, m, from);
  }

  lemma {:induction false} SpeakersAreKnown(c: HubConfig, heard: seq<Heard>, a: Addr)
    ensures var l := HearAll(c, heard).links;
            (if a in l.peerByAddr then Some(l.peerByAddr[a]) else None) == Speaker(c.self, heard, a)
    decreases |heard|
  {
    if heard != [] {
      var before, last := heard[..|heard| - 1], heard[|heard| - 1];
      SpeakersAreKnown(c, before, a);
      MessageNamesPeer(c, HearAll(c, before), last.msg, last.from, last.now, a);
    }
  }

  /** So the hub credits the neighbour that the messages say sent it. */
  lemma CreditsSender(c: HubConfig, heard: seq<Heard>, m: Ogm, from: Addr)
    ensures m.nodeId != c.self ==> Credited(HearAll(c, heard).links, m, from) == Sender(c.self, heard, m, from)
    ensures m.hopCount > 0 ==> ResolveForwarder(HearAll(c, heard).links, m, from) == Sender(c.self, heard, m, from)
  {
    SpeakersAreKnown(c, heard, from);
  }

  lemma LastMessageCounts(c: HubConfig, heard: seq<Heard>, n: NodeId)
    requires heard != []
    ensures var before, last := heard[..|heard| - 1], heard[|heard| - 1];
            var l, l' := HearAll(c, before).links, HearAll(c, heard).links;
            var sent := Sender(c.self, before, last.msg, last.from) == n;
            && Count(l'.linkRQ, n) == Plus(Count(l.linkRQ, n), last.msg.nodeId != c.self && sent)
            && Count(l'.linkEQ, n) == Plus(Count(l.linkEQ, n), last.msg.nodeId == c.self && last.msg.hopCount > 0 && sent)
  {
    var before, last := heard[..|heard| - 1], heard[|heard| - 1];
    CreditsSender(c, before, last.msg, last.from);
    MessageCounts(c, HearAll(c, before), last.msg, last.from, last.now, n);
  }

  /** The three link tables are exactly what the messages heard say, the counters in 32 bits. */
  lemma {:induction false} LinksTellWhatWasHeard(c: HubConfig, heard: seq<Heard>, n: NodeId)
    ensures Count(HearAll(c, heard).links.linkRQ, n) == Ticks(Receptions(c.self, heard, n))
    ensures Count(HearAll(c, heard).links.linkEQ, n) == Ticks(Echoes(c.self, heard, n))
    decreases |heard|
  {
    if heard != [] {
      var before, last := heard[..|heard| - 1], heard[|heard| - 1];
      LinksTellWhatWasHeard(c, before, n);
      LastMessageCounts(c, heard, n);
      var sent := Sender(c.self, before, last.msg, last.from) == n;
      assert Receptions(c.self, heard, n) == Receptions(c.self, before, n) + if last.msg.nodeId != c.self && sent then 1 else 0;
    }
  }

  // ----- The route an accepted message offers -----

  /** The share of messages that come back, cut off at 1; beyond the first hop, 0.85 of it. */
  ghost predicate QualityIs(tq: real, eq: nat, rq: nat, hops: int) {
    var best := if hops > 1 then 0.85 else 1.0;
    if eq <= rq then tq * rq as real == best * eq as real else tq == best
  }

  /** Receptions as a 32-bit counter, but never zero. */
  function AtLeastOne(receptions: nat): nat {
    if receptions % U32 == 0 then 1 else receptions % U32
  }

  lemma LinkQuality(l: Links, n: NodeId, rq: nat, hops: nat)
    requires rq == if Count(l.linkRQ, n) == 0 then 1 else Count(l.linkRQ, n)
    ensures QualityIs(if hops > 1 then PathTQ(LinkTQ(l, n), VIA_TQ) else LinkTQ(l, n), Count(l.linkEQ, n), rq, hops)
  {
    var eq, tq := Count(l.linkEQ, n), LinkTQ(l, n);
    assert if eq <= rq then tq * rq as real == eq as real else tq == 1.0;
    if hops > 1 {
      assert PathTQ(tq, VIA_TQ) == tq * VIA_TQ;
      assert (tq * VIA_TQ) * rq as real == VIA_TQ * (tq * rq as real);
    }
  }

  /** The offer of a message that is credited to n. */
  lemma OfferIs(l: Links, m: Ogm, from: Addr, n: NodeId, receptions: nat)
    requires Credited(l, m, from) == n && Count(l.linkRQ, n) == Ticks(receptions)
    ensures var r := Offer(l, m, from);
            && r.dest == m.nodeId && r.nextHop == n && r.hopCount == m.hopCount + 1
            && r.latencyMs == Count(l.latencyMs, n) * r.hopCount
            && QualityIs(r.tq, Count(l.linkEQ, n), AtLeastOne(receptions + 1), r.hopCount)
  {
    TicksWrap(receptions + 1);
    assert Count(Counted(l, m, from).linkRQ, n) == Ticks(receptions + 1);
    LinkQuality(Counted(l, m, from), n, AtLeastOne(receptions + 1), m.hopCount + 1);
  }

  /** An accepted message leads to one offer: to its origin, through the neighbour that sent it, one hop longer
      than it has come, with that neighbour's latency for each hop, and of the quality that the neighbour's
      echoes and receptions, this one included, amount to. */
  lemma AcceptedOffers(c: HubConfig, heard: seq<Heard>, x: Heard) returns (r: Route)
    requires Accepts(c, HearAll(c, heard), x.msg)
    ensures HearAll(c, heard + [x]).tables == MaybeUpsertRoute(HearAll(c, heard).tables, r)
    ensures r.dest == x.msg.nodeId && r.nextHop == Sender(c.self, heard, x.msg, x.from)
    ensures r.hopCount == x.msg.hopCount + 1
    ensures r.latencyMs == Count(HearAll(c, heard).links.latencyMs, r.nextHop) * r.hopCount
    ensures QualityIs(r.tq, Echoes(c.self, heard, r.nextHop) % U32,
                      AtLeastOne(Receptions(c.self, heard, r.nextHop) + 1), r.hopCount)
  {
    var h := HearAll(c, heard);
    var n := Sender(c.self, heard, x.msg, x.from);
    r := Offer(h.links, x.msg, x.from);
    assert (heard + [x])[..|heard|] == heard;
    CreditsSender(c, heard, x.msg, x.from);
    LinksTellWhatWasHeard(c, heard, n);
    TicksWrap(Echoes(c.self, heard, n));
    OfferIs(h.links, x.msg, x.from, n, Receptions(c.self, heard, n));
  }

  // ----- In a mesh of hubs -----

  /** The deliveries of a run that brought hub h a message from hub n: its own messages coming back, or those
      of others. */
  function DeliveriesFrom(g: NetConfig, net: Net, steps: seq<Step>, h: NodeId, n: NodeId, own: bool): nat
    requires ValidRun(g, net, steps)
    decreases |steps|
  {
    if steps == [] then 0
    else
      (if StepBrings(net, steps[0], h, n, own) then 1 else 0) +
      DeliveriesFrom(g, Next(g, net, steps[0]), steps[1..], h, n, own)
  }

  predicate Brings(p: Packet, h: NodeId, n: NodeId, own: bool) {
    var m := MessageOf(p.frame);
    p.to == h && p.from == n && if own then m.nodeId == h && m.hopCount > 0 else m.nodeId != h
  }

  /** The frame names the hub that sent it, or comes straight from its origin. */
  predicate NamesSender(p: Packet) {
    var m := MessageOf(p.frame);
    if m.hopCount == 0 then m.lastHop.None? && m.nodeId == p.from else m.lastHop == Some(p.from)
  }

  /** Every packet that the run delivers does. */
  predicate Honest(g: NetConfig, net: Net, steps: seq<Step>)
    requires ValidRun(g, net, steps)
    decreases |steps|
  {
    steps == [] ||
    ((steps[0].Deliver? ==> NamesSender(net.wire[steps[0].i])) && Honest(g, Next(g, net, steps[0]), steps[1..]))
  }

  lemma PacketNamesSender(g: NetConfig, net: Net, p: Packet)
    requires PacketOk(g, net, p)
    ensures NamesSender(p)
  {
  }

  lemma {:induction false} RunsAreHonest(g: NetConfig, net: Net, steps: seq<Step>)
    requires ConfigWf(g) && Inv(g, net) && ValidRun(g, net, steps)
    ensures Honest(g, net, steps)
    decreases |steps|
  {
    if steps != [] {
      if steps[0].Deliver? {
        assert PacketOk(g, net, net.wire[steps[0].i]);
        PacketNamesSender(g, net, net.wire[steps[0].i]);
      }
      NextKeepsInv(g, net, steps[0]);
      RunsAreHonest(g, Next(g, net, steps[0]), steps[1..]);
    }
  }

  /** A hub's counter for neighbour n: of its own messages coming back, or of those of others. */
  function Counter(l: Links, n: NodeId, own: bool): nat {
    Count(if own then l.linkEQ else l.linkRQ, n)
  }

  lemma DeliverCounts(g: NetConfig, net: Net, i: nat, now: int, h: NodeId, n: NodeId, own: bool)
    requires Enabled(g, net, Deliver(i, now)) && NamesSender(net.wire[i]) && h in net.hubs && h in g.hub && g.hub[h].self == h
    ensures Counter(Next(g, net, Deliver(i, now)).hubs[h].links, n, own) ==
            Plus(Counter(net.hubs[h].links, n, own), Brings(net.wire[i], h, n, own))
  {
    var p := net.wire[i];
    if p.to == h {
      HelloIsReadAsOgm(g.hub[h], net.hubs[h], p.frame, g.addrOf[p.from], now);
      MessageCounts(g.hub[h], net.hubs[h], MessageOf(p.frame), g.addrOf[p.from], now, n);
    }
  }

  /** A step, as far as it brings h something from n. */
  predicate StepBrings(net: Net, s: Step, h: NodeId, n: NodeId, own: bool) {
    s.Deliver? && s.i < |net.wire| && Brings(net.wire[s.i], h, n, own)
  }

  lemma OtherStepsKeepCounts(g: NetConfig, net: Net, s: Step, h: NodeId)
    requires Enabled(g, net, s) && !s.Deliver? && h in net.hubs
    ensures h in Next(g, net, s).hubs
    ensures Next(g, net, s).hubs[h].links.linkRQ == net.hubs[h].links.linkRQ
    ensures Next(g, net, s).hubs[h].links.linkEQ == net.hubs[h].links.linkEQ
  {
  }

  /** The counter stands at this number, in 32 bits. */
  predicate CounterAt(net: Net, h: NodeId, n: NodeId, own: bool, k: nat) {
    h in net.hubs && Counter(net.hubs[h].links, n, own) == Ticks(k)
  }

  lemma StepCounts(g: NetConfig, net: Net, s: Step, h: NodeId, n: NodeId, own: bool, k: nat)
    requires Enabled(g, net, s) && (s.Deliver? ==> NamesSender(net.wire[s.i])) && h in g.hub && g.hub[h].self == h
    requires CounterAt(net, h, n, own, k)
    ensures CounterAt(Next(g, net, s), h, n, own, if StepBrings(net, s, h, n, own) then k + 1 else k)
  {
    if s.Deliver? {
      DeliverCounts(g, net, s.i, s.now, h, n, own);
    } else {
      OtherStepsKeepCounts(g, net, s, h);
    }
  }

  lemma {:induction false} CountsGrow(g: NetConfig, net: Net, steps: seq<Step>, h: NodeId, n: NodeId, own: bool, k: nat)
    requires ValidRun(g, net, steps) && Honest(g, net, steps) && h in g.hub && g.hub[h].self == h
    requires CounterAt(net, h, n, own, k)
    ensures CounterAt(Run(g, net, steps), h, n, own, k + DeliveriesFrom(g, net, steps, h, n, own))
    decreases |steps|
  {
    if steps != [] {
      var more := StepBrings(net, steps[0], h, n, own);
      StepCounts(g, net, steps[0], h, n, own, k);
      CountsGrow(g, Next(g, net, steps[0]), steps[1..], h, n, own, if more then k + 1 else k);
    }
  }

  lemma MeshCounter(g: NetConfig, steps: seq<Step>, h: NodeId, n: NodeId, own: bool)
    requires ConfigWf(g) && ValidRun(g, Init(g), steps) && h in g.ids
    ensures CounterAt(Run(g, Init(g), steps), h, n, own, DeliveriesFrom(g, Init(g), steps, h, n, own))
  {
    InitInv(g);
    RunsAreHonest(g, Init(g), steps);
    CountsGrow(g, Init(g), steps, h, n, own, 0);
  }

  /** On every run of a mesh, whatever UDP does: a hub's two counters for a neighbour are the deliveries of
      foreign messages from it, and the deliveries of the hub's own messages that it sent back. */
  lemma LinksCountDeliveries(g: NetConfig, steps: seq<Step>, h: NodeId, n: NodeId)
    requires ConfigWf(g) && ValidRun(g, Init(g), steps) && h in g.ids
    ensures h in Run(g, Init(g), steps).hubs
    ensures var l := Run(g, Init(g), steps).hubs[h].links;
            && Count(l.linkRQ, n) == DeliveriesFrom(g, Init(g), steps, h, n, false) % U32
            && Count(l.linkEQ, n) == DeliveriesFrom(g, Init(g), steps, h, n, true) % U32
  {
    MeshCounter(g, steps, h, n, false);
    MeshCounter(g, steps, h, n, true);
    TicksWrap(DeliveriesFrom(g, Init(g), steps, h, n, false));
    TicksWrap(DeliveriesFrom(g, Init(g), steps, h, n, true));
  }

  lemma DeliveredNamesSender(g: NetConfig, steps: seq<Step>, i: nat)
    requires ConfigWf(g) && ValidRun(g, Init(g), steps) && i < |Run(g, Init(g), steps).wire|
    ensures NamesSender(Run(g, Init(g), steps).wire[i])
  {
    InitInv(g);
    RunKeepsInv(g, Init(g), steps);
    assert PacketOk(g, Run(g, Init(g), steps), Run(g, Init(g), steps).wire[i]);
    PacketNamesSender(g, Run(g, Init(g), steps), Run(g, Init(g), steps).wire[i]);
  }

  /** What a delivered message that the receiver accepts does to its tables. */
  lemma ReceivedOffers(g: NetConfig, net: Net, i: nat, now: int)
    requires Enabled(g, net, Deliver(i, now))
    requires Accepts(g.hub[net.wire[i].to], net.hubs[net.wire[i].to], MessageOf(net.wire[i].frame))
    ensures var p := net.wire[i];
            var h := net.hubs[p.to];
            Received(g, net, i, now).hub.tables ==
            MaybeUpsertRoute(h.tables, Offer(h.links, MessageOf(p.frame), g.addrOf[p.from]))
  {
    var p := net.wire[i];
    HelloIsReadAsOgm(g.hub[p.to], net.hubs[p.to], p.frame, g.addrOf[p.from], now);
  }

  /** The offer of a delivered message, when the sender's counters stand at these numbers. */
  lemma DeliveredOffers(g: NetConfig, net: Net, p: Packet, echoes: nat, receptions: nat)
    requires p.to in net.hubs && p.from in g.addrOf && NamesSender(p)
    requires CounterAt(net, p.to, p.from, true, echoes) && CounterAt(net, p.to, p.from, false, receptions)
    ensures var m := MessageOf(p.frame);
            var r := Offer(net.hubs[p.to].links, m, g.addrOf[p.from]);
            && r.dest == m.nodeId && r.nextHop == p.from && r.hopCount == m.hopCount + 1
            && QualityIs(r.tq, echoes % U32, AtLeastOne(receptions + 1), r.hopCount)
  {
    TicksWrap(echoes);
    OfferIs(net.hubs[p.to].links, MessageOf(p.frame), g.addrOf[p.from], p.from, receptions);
  }

  /** So in a mesh the quality of an offered route is the share of deliveries: of the hub's own messages that
      the sender brought back, in the foreign messages it brought, this one included. */
  lemma MeshOffers(g: NetConfig, steps: seq<Step>, i: nat, now: int) returns (r: Route)
    requires ConfigWf(g) && ValidRun(g, Init(g), steps) && Enabled(g, Run(g, Init(g), steps), Deliver(i, now))
    requires var net := Run(g, Init(g), steps);
             Accepts(g.hub[net.wire[i].to], net.hubs[net.wire[i].to], MessageOf(net.wire[i].frame))
    ensures var net := Run(g, Init(g), steps);
            var p, h := net.wire[i], net.wire[i].to;
            && Received(g, net, i, now).hub.tables == MaybeUpsertRoute(net.hubs[h].tables, r)
            && r.dest == MessageOf(p.frame).nodeId && r.nextHop == p.from && r.hopCount == MessageOf(p.frame).hopCount + 1
            && QualityIs(r.tq, DeliveriesFrom(g, Init(g), steps, h, p.from, true) % U32,
                         AtLeastOne(DeliveriesFrom(g, Init(g), steps, h, p.from, false) + 1), r.hopCount)
  {
    var net := Run(g, Init(g), steps);
    var p := net.wire[i];
    r := Offer(net.hubs[p.to].links, MessageOf(p.frame), g.addrOf[p.from]);
    ReceivedOffers(g, net, i, now);
    DeliveredNamesSender(g, steps, i);
    MeshCounter(g, steps, p.to, p.from, true);
    MeshCounter(g, steps, p.to, p.from, false);
    DeliveredOffers(g, net, p, DeliveriesFrom(g, Init(g), steps, p.to, p.from, true),
                    DeliveriesFrom(g, Init(g), steps, p.to, p.from, false));
  }
}
