/** Which neighbours a hub remembers for a destination, over whole runs of offers
    (storeAlternate and maybeUpsertRoute in hub/internal/ogmengine/ogmengine.go). */
module OgmAlternates {
  import opened Mesh
  import opened Routing
  import opened OgmHub
  import opened OgmHubFacts
  import opened RouteOffers

  ghost predicate Lists(alts: seq<Route>, hop: NodeId) {
    exists x :: x in alts && x.nextHop == hop
  }

  /** A route pushed aside is listed last, unless its next hop is listed already; the list keeps everything while
      it has fewer than three entries, and drops exactly the oldest when it has three. Other destinations
      keep theirs. */
  lemma PushedAside(alternates: map<NodeId, seq<Route>>, r: Route)
    requires |AlternatesFor(alternates, r.dest)| <= MAX_ALTERNATES
    ensures var before, after := AlternatesFor(alternates, r.dest), AlternatesFor(StoreAlternate(alternates, r), r.dest);
            && (Lists(before, r.nextHop) ==> after == before)
            && (!Lists(before, r.nextHop) && |before| < 3 ==> after == before + [r])
            && (!Lists(before, r.nextHop) && |before| == 3 ==> after == [before[1], before[2], r])
    ensures forall d :: d != r.dest ==> AlternatesFor(StoreAlternate(alternates, r), d) == AlternatesFor(alternates, d)
  {
    var before, after := AlternatesFor(alternates, r.dest), AlternatesFor(StoreAlternate(alternates, r), r.dest);
    if exists i :: 0 <= i < |before| && before[i].nextHop == r.nextHop {
      var i :| 0 <= i < |before| && before[i].nextHop == r.nextHop;
      assert before[i] in before;
    }
  }

  // ----- The neighbours stored for one destination -----

  ghost function AltHops(alts: seq<Route>): set<NodeId> {
    set r | r in alts :: r.nextHop
  }

  /** The next hops stored for d, in the table or among the alternates. */
  ghost function Hops(t: Tables, d: NodeId): set<NodeId> {
    (if d in t.routes then {t.routes[d].nextHop} else {}) + AltHops(AlternatesFor(t.alternates, d))
  }

  ghost function OfferedHops(offers: seq<Route>): set<NodeId> {
    set r | r in offers :: r.nextHop
  }

  ghost predicate ListOk(t: Tables, d: NodeId) {
    && |AlternatesFor(t.alternates, d)| <= MAX_ALTERNATES && DistinctHops(AlternatesFor(t.alternates, d))
    && (d in t.routes ==> t.routes[d].dest == d)
  }

  /** The route an offer pushes aside: itself, or the one it replaces. */
  function Aside(t: Tables, r: Route): Route
    requires r.dest in t.routes
  {
    if Replaces(t.routes, r) then t.routes[r.dest] else r
  }

  /** The offer costs a neighbour its place: the list is full, the route pushed aside is not through a listed
      neighbour, and the oldest one listed is not the one that is routed through from now on. */
  ghost predicate Evicts(t: Tables, r: Route) {
    && r.dest in t.routes
    && var alts := AlternatesFor(t.alternates, r.dest);
       && |alts| == MAX_ALTERNATES
       && !Lists(alts, Aside(t, r).nextHop)
       && alts[0].nextHop != (if Replaces(t.routes, r) then r else t.routes[r.dest]).nextHop
  }

  lemma AltHopsAfter(alternates: map<NodeId, seq<Route>>, r: Route)
    requires |AlternatesFor(alternates, r.dest)| <= MAX_ALTERNATES && DistinctHops(AlternatesFor(alternates, r.dest))
    ensures var before, after := AlternatesFor(alternates, r.dest), AlternatesFor(StoreAlternate(alternates, r), r.dest);
            && |after| <= MAX_ALTERNATES && DistinctHops(after)
            && AltHops(after) == if |before| == 3 && !Lists(before, r.nextHop)
                                 then AltHops(before) - {before[0].nextHop} + {r.nextHop}
                                 else AltHops(before) + {r.nextHop}
  {
    var before, after := AlternatesFor(alternates, r.dest), AlternatesFor(StoreAlternate(alternates, r), r.dest);
    PushedAside(alternates, r);
    AddAlternateKeeps(before, r);
    if !Lists(before, r.nextHop) {
      if |before| == 3 {
        assert before == [before[0], before[1], before[2]];
        assert AltHops(before) == {before[0].nextHop, before[1].nextHop, before[2].nextHop} by {
          assert before[0] in before && before[1] in before && before[2] in before;
        }
        assert after[0] in after && after[1] in after && after[2] in after;
        assert AltHops(after) == {before[1].nextHop, before[2].nextHop, r.nextHop};
      } else {
        assert forall x :: x in after <==> x in before || x == r;
      }
    }
  }

  /** One offer: its next hop is stored, and nothing else changes but that it may cost one neighbour its place. */
  lemma OfferHops(t: Tables, r: Route)
    requires ListOk(t, r.dest)
    ensures ListOk(MaybeUpsertRoute(t, r), r.dest)
    ensures Hops(MaybeUpsertRoute(t, r), r.dest) ==
            Hops(t, r.dest) + {r.nextHop} -
            (if Evicts(t, r) then {AlternatesFor(t.alternates, r.dest)[0].nextHop} else {})
    ensures Evicts(t, r) ==> AlternatesFor(t.alternates, r.dest)[0].nextHop in Hops(t, r.dest)
  {
    var d, alts := r.dest, AlternatesFor(t.alternates, r.dest);
    if d in t.routes {
      AltHopsAfter(t.alternates, Aside(t, r));
      if |alts| == 3 {
        assert alts[0] in alts;
        assert !Lists(alts, Aside(t, r).nextHop) ==> alts[0].nextHop != Aside(t, r).nextHop;
      }
    }
  }

  // ----- Whole runs of offers -----

  lemma {:induction false} AfterSnoc(t: Tables, offers: seq<Route>, r: Route)
    ensures After(t, offers + [r]) == MaybeUpsertRoute(After(t, offers), r)
    decreases |offers|
  {
    if offers == [] {
      assert [r][1..] == [];
      assert After(MaybeUpsertRoute(t, r), []) == MaybeUpsertRoute(t, r);
      assert offers + [r] == [r];
    } else {
      assert (offers + [r])[1..] == offers[1..] + [r];
      AfterSnoc(MaybeUpsertRoute(t, offers[0]), offers[1..], r);
    }
  }

  /** After the first k offers every next hop there was or has been offered is stored. */
  ghost predicate AllStored(t: Tables, offers: seq<Route>, d: NodeId, k: nat)
    requires k <= |offers|
  {
    Hops(After(t, offers[..k]), d) == Hops(t, d) + OfferedHops(offers[..k])
  }

  ghost predicate EvictsAt(t: Tables, offers: seq<Route>, k: nat)
    requires k < |offers|
  {
    Evicts(After(t, offers[..k]), offers[k])
  }

  ghost predicate OnlyFor(offers: seq<Route>, d: NodeId) {
    forall r :: r in offers ==> r.dest == d
  }

  lemma HopsStep(now: Tables, r: Route, all: set<NodeId>)
    requires ListOk(now, r.dest) && Hops(now, r.dest) <= all
    ensures Hops(MaybeUpsertRoute(now, r), r.dest) <= all + {r.nextHop}
    ensures Hops(now, r.dest) == all ==> (Hops(MaybeUpsertRoute(now, r), r.dest) == all + {r.nextHop} <==> !Evicts(now, r))
  {
    OfferHops(now, r);
    if Evicts(now, r) {
      var oldest := AlternatesFor(now.alternates, r.dest)[0].nextHop;
      assert oldest !in Hops(MaybeUpsertRoute(now, r), r.dest);
    }
  }

  lemma OfferedSnoc(offers: seq<Route>, k: nat)
    requires k < |offers|
    ensures OfferedHops(offers[..k + 1]) == OfferedHops(offers[..k]) + {offers[k].nextHop}
  {
    assert offers[..k + 1] == offers[..k] + [offers[k]];
  }

  lemma AfterOne(t: Tables, offers: seq<Route>, k: nat)
    requires k < |offers|
    ensures After(t, offers[..k + 1]) == MaybeUpsertRoute(After(t, offers[..k]), offers[k])
  {
    assert offers[..k + 1] == offers[..k] + [offers[k]];
    AfterSnoc(t, offers[..k], offers[k]);
  }

  lemma {:induction false} RunHops(t: Tables, offers: seq<Route>, d: NodeId, k: nat)
    requires ListOk(t, d) && OnlyFor(offers, d) && k <= |offers|
    ensures ListOk(After(t, offers[..k]), d)
    ensures Hops(After(t, offers[..k]), d) <= Hops(t, d) + OfferedHops(offers[..k])
    decreases k
  {
    if k == 0 {
      assert offers[..0] == [] && OfferedHops([]) == {};
    } else {
      var now, r := After(t, offers[..k - 1]), offers[k - 1];
      assert r in offers && r.dest == d;
      RunHops(t, offers, d, k - 1);
      AfterOne(t, offers, k - 1);
      OfferedSnoc(offers, k - 1);
      assert ListOk(MaybeUpsertRoute(now, r), d) by { OfferHops(now, r); }
      HopsStep(now, r, Hops(t, d) + OfferedHops(offers[..k - 1]));
    }
  }

  lemma OneMore(t: Tables, offers: seq<Route>, d: NodeId, k: nat)
    requires ListOk(t, d) && OnlyFor(offers, d) && k < |offers| && AllStored(t, offers, d, k)
    ensures AllStored(t, offers, d, k + 1) <==> !EvictsAt(t, offers, k)
  {
    assert offers[k] in offers;
    RunHops(t, offers, d, k);
    AfterOne(t, offers, k);
    OfferedSnoc(offers, k);
    var all := Hops(t, d) + OfferedHops(offers[..k]);
    HopsStep(After(t, offers[..k]), offers[k], all);
    assert Hops(t, d) + OfferedHops(offers[..k + 1]) == all + {offers[k].nextHop};
  }

  lemma {:induction false} StoredWithoutEvictions(t: Tables, offers: seq<Route>, d: NodeId, m: nat)
    requires ListOk(t, d) && OnlyFor(offers, d) && m <= |offers|
    requires forall k :: 0 <= k < m ==> !EvictsAt(t, offers, k)
    ensures AllStored(t, offers, d, m)
    decreases m
  {
    if m == 0 {
      assert offers[..0] == [] && OfferedHops([]) == {};
    } else {
      StoredWithoutEvictions(t, offers, d, m - 1);
      OneMore(t, offers, d, m - 1);
    }
  }

  /** Over any run of offers to one destination, every next hop ever offered stays stored, as the route or an
      alternate, if and only if no offer meets the condition of Evicts, which a hub can check beforehand. */
  lemma HopsStayExactly(t: Tables, offers: seq<Route>, d: NodeId)
    requires ListOk(t, d) && OnlyFor(offers, d)
    ensures (forall k :: 0 <= k <= |offers| ==> AllStored(t, offers, d, k)) <==>
            (forall k :: 0 <= k < |offers| ==> !EvictsAt(t, offers, k))
  {
    if forall k :: 0 <= k < |offers| ==> !EvictsAt(t, offers, k) {
      forall k | 0 <= k <= |offers| ensures AllStored(t, offers, d, k) {
        StoredWithoutEvictions(t, offers, d, k);
      }
    }
    if forall k :: 0 <= k <= |offers| ==> AllStored(t, offers, d, k) {
      forall k | 0 <= k < |offers| ensures !EvictsAt(t, offers, k) {
        OneMore(t, offers, d, k);
      }
    }
  }

  /** Three neighbours always have room: what costs a neighbour its place is a fourth. */
  lemma ThreeHopsAreKept(t: Tables, offers: seq<Route>, d: NodeId)
    requires ListOk(t, d) && OnlyFor(offers, d) && |Hops(t, d) + OfferedHops(offers)| <= MAX_ALTERNATES
    ensures Hops(After(t, offers), d) == Hops(t, d) + OfferedHops(offers)
  {
    forall k | 0 <= k < |offers| ensures !EvictsAt(t, offers, k) {
      if EvictsAt(t, offers, k) {
        FourAtLeast(t, offers, d, k);
        assert false;
      }
    }
    HopsStayExactly(t, offers, d);
    assert AllStored(t, offers, d, |offers|);
    assert offers[..|offers|] == offers;
  }

  /** Three listed neighbours and the one pushed aside. */
  lemma FourHops(now: Tables, r: Route, all: set<NodeId>)
    requires ListOk(now, r.dest) && Evicts(now, r) && Hops(now, r.dest) <= all && r.nextHop in all
    ensures |all| > MAX_ALTERNATES
  {
    var alts, aside := AlternatesFor(now.alternates, r.dest), Aside(now, r).nextHop;
    assert alts[0] in alts && alts[1] in alts && alts[2] in alts;
    var four := [alts[0].nextHop, alts[1].nextHop, alts[2].nextHop, aside];
    assert AltHops(alts) <= all;
    DistinctBound(four, all);
  }

  lemma FourAtLeast(t: Tables, offers: seq<Route>, d: NodeId, k: nat)
    requires ListOk(t, d) && OnlyFor(offers, d) && k < |offers| && EvictsAt(t, offers, k)
    ensures |Hops(t, d) + OfferedHops(offers)| > MAX_ALTERNATES
  {
    assert offers[k] in offers;
    RunHops(t, offers, d, k);
    assert OfferedHops(offers[..k]) <= OfferedHops(offers);
    FourHops(After(t, offers[..k]), offers[k], Hops(t, d) + OfferedHops(offers));
  }
}
