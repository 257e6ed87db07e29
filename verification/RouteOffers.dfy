/** Route selection over whole runs of offers to one destination (maybeUpsertRoute and Better). */
module RouteOffers {
  import opened Mesh
  import opened Routing
  import opened OgmHub

  /** All offers are for destination d, a real one, and the table is keyed by destination. */
  ghost predicate OffersFor(t: Tables, offers: seq<Route>, d: NodeId) {
    && d != ZERO_ID
    && (d in t.routes ==> t.routes[d].dest == d)
    && forall r :: r in offers ==> r.dest == d
  }

  function After(t: Tables, offers: seq<Route>): Tables
    decreases |offers|
  {
    if offers == [] then t else After(MaybeUpsertRoute(t, offers[0]), offers[1..])
  }

  function CostTo(t: Tables, d: NodeId): real
    requires d in t.routes
  {
    Cost(ToMetric(t.routes[d]))
  }

  /** The offer takes the place of a route of nearly the same cost. */
  predicate TieReplacement(t: Tables, r: Route) {
    r.dest in t.routes && Replaces(t.routes, r) && NearTie(ToMetric(r), ToMetric(t.routes[r.dest]))
  }

  function TieReplacements(t: Tables, offers: seq<Route>): nat
    decreases |offers|
  {
    if offers == [] then 0
    else (if TieReplacement(t, offers[0]) then 1 else 0) + TieReplacements(MaybeUpsertRoute(t, offers[0]), offers[1..])
  }

  /** Right after an offer, the installed route costs at most the tolerance more than the offer;
      and it costs no more than before unless the offer won a near tie. */
  lemma OneOffer(t: Tables, r: Route)
    requires r.dest != ZERO_ID && (r.dest in t.routes ==> t.routes[r.dest].dest == r.dest)
    ensures var t' := MaybeUpsertRoute(t, r);
            && r.dest in t'.routes && t'.routes[r.dest].dest == r.dest
            && CostTo(t', r.dest) <= Cost(ToMetric(r)) + TOLERANCE
            && (r.dest in t.routes ==>
                  CostTo(t', r.dest) <= CostTo(t, r.dest) + (if TieReplacement(t, r) then TOLERANCE else 0.0))
  {
    var t' := MaybeUpsertRoute(t, r);
    if r.dest in t.routes {
      var offered, cur := ToMetric(r), ToMetric(t.routes[r.dest]);
      assert cur.dest != ZERO_ID;
      assert t'.routes[r.dest] == if Better(offered, cur) then r else t.routes[r.dest];
    }
  }

  /** From any installed route, a run of offers raises the cost by at most the tolerance for each
      replacement made in a near tie. */
  lemma {:induction false} DriftIsBounded(t: Tables, offers: seq<Route>, d: NodeId)
    requires OffersFor(t, offers, d) && d in t.routes
    ensures d in After(t, offers).routes
    ensures CostTo(After(t, offers), d) <= CostTo(t, d) + TOLERANCE * TieReplacements(t, offers) as real
    decreases |offers|
  {
    if offers != [] {
      var t' := MaybeUpsertRoute(t, offers[0]);
      OneOffer(t, offers[0]);
      DriftIsBounded(t', offers[1..], d);
    }
  }

  /** After any run of offers, for every offer seen along the way: the installed route costs at most
      0.001 * (1 + k) more than that offer, where k counts the near-tie replacements made since. */
  lemma {:induction false} InstalledIsNearlyCheapest(t: Tables, offers: seq<Route>, d: NodeId, j: nat)
    requires OffersFor(t, offers, d) && j < |offers|
    ensures d in After(t, offers).routes
    ensures var since := offers[j + 1..];
            CostTo(After(t, offers), d) <=
            Cost(ToMetric(offers[j])) + TOLERANCE * (1 + TieReplacements(After(t, offers[..j + 1]), since)) as real
    decreases |offers|
  {
    var t' := MaybeUpsertRoute(t, offers[0]);
    OneOffer(t, offers[0]);
    if j == 0 {
      assert offers[..1][1..] == [];
      assert After(t, offers[..1]) == t';
      DriftIsBounded(t', offers[1..], d);
    } else {
      InstalledIsNearlyCheapest(t', offers[1..], d, j - 1);
      assert offers[1..][j - 1] == offers[j];
      assert offers[1..][j..] == offers[j + 1..];
      assert offers[..j + 1][1..] == offers[1..][..j];
    }
  }

  // ----- Better is not transitive -----

  /** Two near ties add up to a worse cost: a is better than b and b than c on quality or hops alone. */
  predicate TiesAddUp(a: Metric, b: Metric, c: Metric) {
    NearTie(a, b) && NearTie(b, c) && !NearTie(a, c) && Cost(a) > Cost(c)
  }

  /** One tie and one clear win leave a near tie, in which the quality or the hops speak against a. */
  predicate TieRemains(a: Metric, b: Metric, c: Metric) {
    NearTie(a, b) != NearTie(b, c) && NearTie(a, c) && (a.tq < c.tq || (a.tq == c.tq && a.hops >= c.hops))
  }

  /** Transitivity fails exactly in these two ways. */
  lemma BetterComposesExactly(a: Metric, b: Metric, c: Metric)
    requires a.dest != ZERO_ID && b.dest != ZERO_ID && c.dest != ZERO_ID
    requires Better(a, b) && Better(b, c)
    ensures Better(a, c) <==> !TiesAddUp(a, b, c) && !TieRemains(a, b, c)
  {
  }

  /** So wherever near ties compose, Better does too. */
  lemma BetterComposes(a: Metric, b: Metric, c: Metric)
    requires a.dest != ZERO_ID && b.dest != ZERO_ID && c.dest != ZERO_ID
    requires Better(a, b) && Better(b, c)
    requires NearTie(a, c) <==> NearTie(a, b) && NearTie(b, c)
    ensures Better(a, c)
  {
    BetterComposesExactly(a, b, c);
  }

  /** It does fail: with no latency at all, three routes of one, two and three hops are each better than
      the one before, and the first is better than the last, because their ties add up. */
  lemma BetterCycles(d: NodeId)
    requires d != ZERO_ID
    ensures var a, b, c := Metric(d, 1, 0.05, 0, 1), Metric(d, 2, 0.29998, 0, 2), Metric(d, 3, 0.54996, 0, 3);
            Better(b, a) && Better(c, b) && TiesAddUp(c, b, a) && !Better(c, a) && Better(a, c)
  {
    var a, b, c := Metric(d, 1, 0.05, 0, 1), Metric(d, 2, 0.29998, 0, 2), Metric(d, 3, 0.54996, 0, 3);
    assert Cost(a) == 48.0 && Cost(b) == 48.0008 && Cost(c) == 48.0016;
    BetterComposesExactly(c, b, a);
  }
}
