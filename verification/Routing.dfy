/** Link quality, route cost and route comparison (core/routing/routing.go). */
module Routing {
  import opened Mesh

  /** A row of routing_table (hub/internal/registry/registry.go:55-62). */
  datatype Route = Route(dest: NodeId, nextHop: NodeId, tq: real, latencyMs: int, hopCount: int)

  /** routing.Route: the form in which two routes are compared. */
  datatype Metric = Metric(dest: NodeId, nextHop: NodeId, tq: real, latency: nat, hops: nat)

  /** The conversion in maybeUpsertRoute; `uint32(x)` keeps the low 32 bits. */
  function ToMetric(r: Route): Metric {
    Metric(r.dest, r.nextHop, r.tq, r.latencyMs % U32, r.hopCount % U32)
  }

  lemma QuotientBound(eq: nat, rq: nat)
    requires rq > 0
    ensures 0.0 <= eq as real / rq as real
    ensures eq <= rq <==> eq as real / rq as real <= 1.0
  {
    var q := eq as real / rq as real;
    assert q * rq as real == eq as real;
  }

  /** EQ/RQ clamped to [0, 1]: the exact ratio while echoes do not outnumber receptions. */
  function ComputeTQ(eq: nat, rq: nat): (tq: real)
    ensures 0.0 <= tq <= 1.0
    ensures rq != 0 && eq <= rq ==> tq * rq as real == eq as real
    ensures rq != 0 && rq < eq ==> tq == 1.0
  {
    if rq == 0 then 0.0
    else
      QuotientBound(eq, rq);
      var q := eq as real / rq as real;
      if q > 1.0 then 1.0 else if q < 0.0 then 0.0 else q
  }

  lemma ProductNonNegative(a: real, b: real)
    requires 0.0 <= a && 0.0 <= b
    ensures 0.0 <= a * b
  {
  }

  lemma ProductBound(a: real, b: real)
    requires 0.0 <= a <= 1.0 && 0.0 <= b <= 1.0
    ensures 0.0 <= a * b <= a && a * b <= b
  {
    ProductNonNegative(a, b);
    ProductNonNegative(a, 1.0 - b);
    ProductNonNegative(b, 1.0 - a);
    assert a * (1.0 - b) == a - a * b && b * (1.0 - a) == b - a * b;
  }

  /** The product of both qualities, which the clamp never touches for qualities in [0, 1]. */
  function PathTQ(linkTQ: real, viaTQ: real): (tq: real)
    ensures 0.0 <= linkTQ <= 1.0 && 0.0 <= viaTQ <= 1.0 ==>
              tq == linkTQ * viaTQ && 0.0 <= tq <= linkTQ && tq <= viaTQ
  {
    var v := linkTQ * viaTQ;
    assert 0.0 <= linkTQ <= 1.0 && 0.0 <= viaTQ <= 1.0 ==> 0.0 <= v <= linkTQ && v <= viaTQ by {
      if 0.0 <= linkTQ <= 1.0 && 0.0 <= viaTQ <= 1.0 { ProductBound(linkTQ, viaTQ); }
    }
    if v > 1.0 then 1.0 else v
  }

  function Cost(m: Metric): real {
    m.hops as real * 10.0 + m.latency as real * 0.05 + (1.0 - m.tq) * 40.0
  }

  function Abs(x: real): real {
    if x < 0.0 then -x else x
  }

  const TOLERANCE := 0.001

  predicate NearTie(a: Metric, b: Metric) {
    Abs(Cost(a) - Cost(b)) <= TOLERANCE
  }

  predicate Better(candidate: Metric, current: Metric) {
    if current.dest == ZERO_ID then true
    else if !NearTie(candidate, current) then Cost(candidate) < Cost(current)
    else if candidate.tq != current.tq then candidate.tq > current.tq
    else candidate.hops < current.hops
  }

  /** What the score weighs: a hop as much as 200 ms, or as a quarter of the quality; a perfect link at no
      distance costs nothing. */
  lemma CostWeighs(m: Metric, q: real)
    ensures Cost(m.(hops := m.hops + 1)) == Cost(m) + 10.0
    ensures Cost(m.(latency := m.latency + 1)) == Cost(m) + 0.05
    ensures Cost(m.(tq := q)) == Cost(m) + 40.0 * (m.tq - q)
    ensures Cost(m.(hops := 0, latency := 0, tq := 1.0)) == 0.0
  {
  }

  /** Of two routes to a real destination one is better, except in a near tie of equal quality and length; a clear
      difference in cost decides before quality, and quality before length. Any route beats none. */
  lemma BetterDecidesExactly(a: Metric, b: Metric)
    ensures b.dest == ZERO_ID ==> Better(a, b)
    ensures a.dest != ZERO_ID && b.dest != ZERO_ID ==>
            && (Better(a, b) || Better(b, a) <==> !(Abs(Cost(a) - Cost(b)) <= 0.001 && a.tq == b.tq && a.hops == b.hops))
            && (Cost(a) < Cost(b) - 0.001 ==> Better(a, b))
            && (Abs(Cost(a) - Cost(b)) <= 0.001 && a.tq > b.tq ==> Better(a, b))
            && (Abs(Cost(a) - Cost(b)) <= 0.001 && a.tq == b.tq && a.hops < b.hops ==> Better(a, b))
  {
  }

  /** Better never prefers a route to itself, and never prefers both of two routes,
      once both name a real destination. */
  lemma BetterIsAsymmetric(a: Metric, b: Metric)
    requires a.dest != ZERO_ID && b.dest != ZERO_ID
    ensures !Better(a, a)
    ensures !(Better(a, b) && Better(b, a))
  {
  }
}
