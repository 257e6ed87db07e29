/** What one hub keeps true of its own tables, whatever messages arrive. */
module OgmHubFacts {
  import opened Mesh
  import opened Routing
  import opened OgmHub
  import opened Registry

  /** Route r is stored under destination d, in the table or among the alternates. */
  predicate Holds(t: Tables, d: NodeId, r: Route) {
    (d in t.routes && t.routes[d] == r) || (d in t.alternates && r in t.alternates[d])
  }

  const MAX_LATENCY := 9999

  predicate Measured(r: Route) {
    && r.hopCount >= 1
    && 0.0 <= r.tq <= 1.0
    && (r.hopCount > 1 ==> r.tq <= VIA_TQ)
    && 0 <= r.latencyMs <= MAX_LATENCY * r.hopCount
  }

  ghost predicate DistinctHops(alts: seq<Route>) {
    forall i, j :: 0 <= i < j < |alts| ==> alts[i].nextHop != alts[j].nextHop
  }

  ghost predicate AlternatesWf(alternates: map<NodeId, seq<Route>>) {
    forall d :: d in alternates ==> |alternates[d]| <= MAX_ALTERNATES && DistinctHops(alternates[d])
  }

  ghost predicate TablesWf(t: Tables) {
    && AlternatesWf(t.alternates)
    && forall d, r :: Holds(t, d, r) ==> r.dest == d && Measured(r)
  }

  /** rebroadcasted never runs ahead of lastSeq. */
  ghost predicate FiltersWf(f: Filters) {
    forall o :: o in f.rebroadcasted ==> o in f.lastSeq && f.rebroadcasted[o] <= f.lastSeq[o]
  }

  ghost predicate LinksWf(l: Links) {
    forall n :: n in l.latencyMs ==> l.latencyMs[n] <= MAX_LATENCY
  }

  ghost predicate HubWf(h: HubState) {
    TablesWf(h.tables) && FiltersWf(h.filters) && LinksWf(h.links)
  }

  // ----- Route offers -----

  lemma AddAlternateKeeps(alts: seq<Route>, r: Route)
    requires |alts| <= MAX_ALTERNATES && DistinctHops(alts)
    ensures |AddAlternate(alts, r)| <= MAX_ALTERNATES && DistinctHops(AddAlternate(alts, r))
    ensures forall x :: x in AddAlternate(alts, r) ==> x in alts || x == r
  {
  }

  /** The only new route an offer can leave behind is the offer itself. */
  lemma OfferHolds(t: Tables, c: Route, d: NodeId, r: Route)
    requires TablesWf(t)
    requires Holds(MaybeUpsertRoute(t, c), d, r)
    ensures Holds(t, d, r) || (d == c.dest && r == c)
  {
    AddAlternateKeeps(AlternatesFor(t.alternates, c.dest), c);
    if c.dest in t.routes {
      assert Holds(t, c.dest, t.routes[c.dest]);
      AddAlternateKeeps(AlternatesFor(t.alternates, c.dest), t.routes[c.dest]);
    }
  }

  lemma OfferKeepsWf(t: Tables, c: Route)
    requires TablesWf(t) && Measured(c)
    ensures TablesWf(MaybeUpsertRoute(t, c))
  {
    forall d, r | Holds(MaybeUpsertRoute(t, c), d, r) ensures r.dest == d && Measured(r) {
      OfferHolds(t, c, d, r);
    }
    AddAlternateKeeps(AlternatesFor(t.alternates, c.dest), c);
    if c.dest in t.routes {
      assert Holds(t, c.dest, t.routes[c.dest]);
      AddAlternateKeeps(AlternatesFor(t.alternates, c.dest), t.routes[c.dest]);
    }
  }

  lemma CandidateMeasured(l: Links, msg: Ogm, forwarder: NodeId)
    requires LinksWf(l)
    ensures Measured(Candidate(l, msg, forwarder))
  {
    LatencyScales(Count(l.latencyMs, forwarder), msg.hopCount + 1);
  }

  lemma LatencyScales(latency: nat, hops: nat)
    requires latency <= MAX_LATENCY
    ensures 0 <= latency * hops <= MAX_LATENCY * hops
  {
  }

  /** A measured route costs at least ten per hop and at most what 9999 ms per hop and no link quality
      at all would cost, while hop count and latency fit the 32 bits in which they are compared. */
  lemma MeasuredCost(r: Route)
    requires Measured(r) && r.hopCount < U32 && r.latencyMs < U32
    ensures 10.0 * r.hopCount as real <= Cost(ToMetric(r)) <= 509.95 * r.hopCount as real + 40.0
    ensures r.latencyMs == 0 ==> Cost(ToMetric(r)) <= 10.0 * r.hopCount as real + 40.0
  {
    assert ToMetric(r) == Metric(r.dest, r.nextHop, r.tq, r.latencyMs, r.hopCount);
    assert r.latencyMs as real <= 9999.0 * r.hopCount as real;
  }

  /** While a neighbour has echoed nothing, its link quality is 0. */
  lemma NoEchoes(l: Links, neighbor: NodeId)
    requires l.linkEQ == map[]
    ensures LinkTQ(l, neighbor) == 0.0
  {
    var rq := if Count(l.linkRQ, neighbor) > 1 then Count(l.linkRQ, neighbor) else 1;
    assert LinkTQ(l, neighbor) * rq as real == 0.0;
  }

  // ----- Messages -----

  lemma HandleOgmKeepsWf(c: HubConfig, h: HubState, msg: Ogm, from: Addr, now: int)
    requires HubWf(h)
    ensures HubWf(HandleOgm(c, h, msg, from, now).hub)
  {
    CandidateMeasured(Counted(h.links, msg, from), msg, Credited(h.links, msg, from));
    OfferKeepsWf(h.tables, Offer(h.links, msg, from));
  }

  /** handleHello would keep the same bounds, were it ever reached. */
  lemma HandleHelloKeepsWf(l: Links, sender: NodeId, from: Addr, now: int)
    requires LinksWf(l)
    ensures LinksWf(HandleHello(l, sender, from, now))
  {
  }

  /** Every datagram decodes as an Ogm, so handleHello is never reached: a Hello is an OGM whose
      sequence number is the time it was sent, and round trips are never measured. */
  lemma HelloIsReadAsOgm(c: HubConfig, h: HubState, f: Frame, from: Addr, now: int)
    ensures DecodeOgm(f).Some?
    ensures HandlePacket(c, h, f, from, now) == HandleOgm(c, h, DecodeOgm(f).value, from, now)
    ensures HandlePacket(c, h, f, from, now).hub.links.latencyMs == h.links.latencyMs
  {
  }

  /** The second duplicate filter never fires for a message that passed the first: with
      time to live left, an accepted OGM is always flooded on. */
  lemma AcceptedIsRebroadcast(c: HubConfig, h: HubState, msg: Ogm, from: Addr, now: int)
    requires FiltersWf(h.filters) && Accepts(c, h, msg)
    requires msg.seqNo >= 1 && msg.ttl > 0
    ensures Flood(Forwarded(c, msg, msg.startup), Some(from)) in HandleOgm(c, h, msg, from, now).floods
  {
    assert Rebroadcasts(h.filters, msg);
  }

  /** Exactly what a hub sends on: nothing unless it accepts the message with time to live left; otherwise, for any
      number but zero, one copy, one hop further, marked as it came; and before that one marked as a startup
      announcement if the origin was not online and somebody listens for such news. No copy goes back where
      the message came from. */
  lemma FloodsExactly(c: HubConfig, h: HubState, msg: Ogm, from: Addr, now: int)
    requires FiltersWf(h.filters)
    ensures var floods := HandleOgm(c, h, msg, from, now).floods;
            if msg.nodeId == c.self || IsDuplicate(h.filters, msg) || msg.ttl == 0 then floods == []
            else
              var on := Ogm(msg.nodeId, msg.seqNo, msg.ttl - 1, msg.startup, Some(c.self), Inc32(msg.hopCount));
              var known := msg.nodeId in h.nodes && h.nodes[msg.nodeId].status == Online;
              floods == (if c.hasHandler && !known then [Flood(on.(startup := true), Some(from))] else []) +
                        (if msg.seqNo >= 1 then [Flood(on, Some(from))] else [])
  {
  }

  /** What a message leaves on record. Unless it is accepted, only the link counters: no filter, route or node changes.
      If it is, its number, its origin as seen online just now with a route to it, and nothing about
      any other node. */
  lemma RecordsExactly(c: HubConfig, h: HubState, msg: Ogm, from: Addr, now: int)
    ensures var h' := HandleOgm(c, h, msg, from, now).hub;
            if !Accepts(c, h, msg) then h' == h.(links := h'.links)
            else
              && h'.seqNo == h.seqNo && h'.filters.lastSeq == h.filters.lastSeq[msg.nodeId := msg.seqNo]
              && msg.nodeId in h'.nodes && h'.nodes[msg.nodeId].status == Online && h'.nodes[msg.nodeId].lastSeen == now
              && h'.nodes - {msg.nodeId} == h.nodes - {msg.nodeId}
              && msg.nodeId in h'.tables.routes && h'.tables.routes - {msg.nodeId} == h.tables.routes - {msg.nodeId}
              && (msg.nodeId in h'.tables.alternates && !(msg.nodeId in h.tables.alternates) ==> msg.nodeId in h.tables.routes)
              && (TablesWf(h.tables) ==> h'.tables.alternates - {msg.nodeId} == h.tables.alternates - {msg.nodeId})
  {
    if Accepts(c, h, msg) {
      var r := Offer(h.links, msg, from);
      assert r.dest == msg.nodeId;
      if msg.nodeId in h.tables.routes {
        assert Holds(h.tables, msg.nodeId, h.tables.routes[msg.nodeId]);
      }
    }
  }

  // ----- Failover -----

  lemma {:induction false} SurvivingKeepsDistinct(alts: seq<Route>, stale: NodeId)
    requires DistinctHops(alts)
    ensures DistinctHops(Surviving(alts, stale))
  {
    if alts != [] {
      SurvivingKeepsDistinct(alts[1..], stale);
      SurvivingAre(alts[1..], stale);
    }
  }

  /** What a failover leaves stored was stored before and does not pass through the stale node. */
  lemma FailoverHolds(t: Tables, stale: NodeId, d: NodeId, r: Route)
    requires Holds(Failover(t, stale), d, r)
    ensures Holds(t, d, r) && r.nextHop != stale
  {
    if d in t.alternates {
      SurvivingAre(t.alternates[d], stale);
    }
  }

  /** Position k holds the oldest alternate around the stale node. */
  predicate OldestAround(alts: seq<Route>, stale: NodeId, k: nat) {
    k < |alts| && alts[k].nextHop != stale && forall j :: 0 <= j < k ==> alts[j].nextHop == stale
  }

  /** Listing the positions `at` gives `live`, in order, and they are the ones at or after `from` around the stale node. */
  ghost predicate StandAt(live: seq<Route>, alts: seq<Route>, stale: NodeId, from: nat, at: seq<nat>) {
    && |at| == |live|
    && (forall i :: 0 <= i < |at| ==> from <= at[i] < |alts| && live[i] == alts[at[i]])
    && (forall i, j :: 0 <= i < j < |at| ==> at[i] < at[j])
    && (forall k: nat :: k in at <==> from <= k < |alts| && alts[k].nextHop != stale)
  }

  lemma {:induction false} SurvivorsFrom(alts: seq<Route>, stale: NodeId, from: nat) returns (at: seq<nat>)
    requires from <= |alts|
    ensures StandAt(Surviving(alts[from..], stale), alts, stale, from, at)
    decreases |alts| - from
  {
    if from == |alts| {
      at := [];
    } else {
      var later := SurvivorsFrom(alts, stale, from + 1);
      assert alts[from..][1..] == alts[from + 1..];
      at := (if alts[from].nextHop == stale then [] else [from]) + later;
      assert forall k: nat :: k in at <==> k in later || (k == from && alts[from].nextHop != stale);
    }
  }

  /** A failover leaves exactly the alternates around the stale node, in the order in which they were listed;
      `at` says where each stood. */
  lemma SurvivorsInOrder(alts: seq<Route>, stale: NodeId) returns (at: seq<nat>)
    ensures StandAt(Surviving(alts, stale), alts, stale, 0, at)
  {
    at := SurvivorsFrom(alts, stale, 0);
    assert alts[0..] == alts;
  }

  lemma OldestSurvivesFirst(alts: seq<Route>, stale: NodeId, k: nat)
    requires OldestAround(alts, stale, k)
    ensures Surviving(alts, stale) != [] && Surviving(alts, stale)[0] == alts[k]
  {
    var at := SurvivorsInOrder(alts, stale);
    assert k in at;
    var i :| 0 <= i < |at| && at[i] == k;
    assert at[0] in at;
  }

  lemma OldestExists(alts: seq<Route>, stale: NodeId)
    requires exists r :: r in alts && r.nextHop != stale
    ensures exists k: nat :: OldestAround(alts, stale, k)
  {
    var at := SurvivorsInOrder(alts, stale);
    SurvivingAre(alts, stale);
    assert forall j :: 0 <= j < at[0] ==> j !in at;
    assert OldestAround(alts, stale, at[0]);
  }

  /** One failover keeps a route for exactly the destinations routed around the stale node
      and those with an alternate around it, and it always prefers the oldest such alternate,
      even over a healthy table entry. */
  lemma FailoverExactly(t: Tables, stale: NodeId, d: NodeId)
    ensures d in Failover(t, stale).routes <==>
            (d in t.routes && t.routes[d].nextHop != stale) ||
            (d in t.alternates && exists r :: r in t.alternates[d] && r.nextHop != stale)
    ensures d in Failover(t, stale).routes ==>
            Failover(t, stale).routes[d] ==
            if d in Promotable(t, stale) then Surviving(t.alternates[d], stale)[0] else t.routes[d]
    ensures d in t.alternates ==> forall k: nat :: OldestAround(t.alternates[d], stale, k) ==>
            d in Failover(t, stale).routes && Failover(t, stale).routes[d] == t.alternates[d][k]
    ensures (d in t.routes && t.routes[d].nextHop != stale) && (d in t.alternates ==> forall r :: r in t.alternates[d] ==> r.nextHop == stale) ==>
            d in Failover(t, stale).routes && Failover(t, stale).routes[d] == t.routes[d]
  {
    if d in t.alternates {
      SurvivingAre(t.alternates[d], stale);
      if Surviving(t.alternates[d], stale) != [] {
        assert Surviving(t.alternates[d], stale)[0] in Surviving(t.alternates[d], stale);
      }
      forall k: nat | OldestAround(t.alternates[d], stale, k) ensures d in Promotable(t, stale) && Surviving(t.alternates[d], stale)[0] == t.alternates[d][k] {
        OldestSurvivesFirst(t.alternates[d], stale, k);
      }
    }
  }

  lemma FailoverKeepsWf(t: Tables, stale: NodeId)
    requires TablesWf(t)
    ensures TablesWf(Failover(t, stale))
  {
    var t' := Failover(t, stale);
    forall d, r | Holds(t', d, r) ensures r.dest == d && Measured(r) {
      FailoverHolds(t, stale, d, r);
    }
    forall d | d in t'.alternates ensures |t'.alternates[d]| <= MAX_ALTERNATES && DistinctHops(t'.alternates[d]) {
      SurvivingAre(t.alternates[d], stale);
      SurvivingKeepsDistinct(t.alternates[d], stale);
    }
  }

  /** After a whole sweep no stored route passes through any of the swept nodes, and every
      route left was there before: a later failover never brings back an earlier stale hop. */
  lemma {:induction false} SweepClearsStaleHops(t: Tables, stale: seq<NodeId>, d: NodeId, r: Route)
    requires Holds(FailoverAll(t, stale), d, r)
    ensures Holds(t, d, r) && r.nextHop !in stale
    decreases |stale|
  {
    if stale != [] {
      SweepClearsStaleHops(Failover(t, stale[0]), stale[1..], d, r);
      FailoverHolds(t, stale[0], d, r);
    }
  }

  /** Some alternate for d avoids every swept node. */
  ghost predicate HasLiveAlternate(t: Tables, stale: seq<NodeId>, d: NodeId) {
    d in t.alternates && exists r :: r in t.alternates[d] && r.nextHop !in stale
  }

  /** Every alternate for d passes through this one node. */
  ghost predicate AlternatesAllVia(t: Tables, hop: NodeId, d: NodeId) {
    d in t.alternates ==> forall r :: r in t.alternates[d] ==> r.nextHop == hop
  }

  lemma FailoverAlternates(t: Tables, first: NodeId, rest: seq<NodeId>, d: NodeId)
    ensures HasLiveAlternate(Failover(t, first), rest, d) <==> HasLiveAlternate(t, [first] + rest, d)
    ensures AlternatesAllVia(t, first, d) <==> d !in Promotable(t, first)
    ensures d in Failover(t, first).alternates ==>
            forall r :: r in Failover(t, first).alternates[d] ==> r.nextHop != first
  {
    if d in t.alternates {
      SurvivingAre(t.alternates[d], first);
      assert forall r :: r in Surviving(t.alternates[d], first) && r.nextHop !in rest <==>
                         r in t.alternates[d] && r.nextHop !in [first] + rest;
      if Surviving(t.alternates[d], first) != [] {
        assert Surviving(t.alternates[d], first)[0] in Surviving(t.alternates[d], first);
      }
    }
  }

  /** Exactly which destinations still have a route after a sweep: those with an alternate around
      every swept node, and those whose table route avoids them all while every alternate goes
      through the node swept first. Otherwise the first failover has already replaced the healthy
      route by an alternate that a later failover deletes. */
  lemma {:induction false} SweepKeepsExactly(t: Tables, stale: seq<NodeId>, d: NodeId)
    requires stale != []
    ensures d in FailoverAll(t, stale).routes <==>
            HasLiveAlternate(t, stale, d) ||
            (d in t.routes && t.routes[d].nextHop !in stale && AlternatesAllVia(t, stale[0], d))
    decreases |stale|
  {
    var first, rest := stale[0], stale[1..];
    var next := Failover(t, first);
    assert stale == [first] + rest;
    FailoverExactly(t, first, d);
    FailoverAlternates(t, first, rest, d);
    if rest == [] {
      FailoverAlternates(t, first, [], d);
      assert FailoverAll(next, rest) == next;
    } else {
      SweepKeepsExactly(next, rest, d);
      if d in Promotable(t, first) {
        assert next.routes[d] in next.alternates[d];
      }
    }
  }
}
