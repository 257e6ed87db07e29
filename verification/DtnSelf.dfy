/** What becomes of bundles a hub addresses to itself, given the routes that hubs really hold. */
module DtnSelf {
  import opened DtnQueue
  import opened DtnRuns
  import opened DtnSolo
  import DtnEngine
  import OgmNetwork
  import OgmPaths

  // ----- When a bundle is delivered -----

  /** The step decides on this self-addressed bundle with everything in place for local delivery. */
  predicate HandsOver(c: Config, s: State, step: Step, id: BundleId) {
    && step.Decide? && step.p in s.passes && s.passes[step.p].Working? && s.passes[step.p].todo != []
    && var it := s.passes[step.p].todo[0];
       && it.id == id && it.bundle.dst == c.self && c.self in s.passes[step.p].online
       && step.hasRoute && step.delivered
  }

  ghost function HandOvers(c: Config, s: State, steps: seq<Step>, id: BundleId): nat
    requires ValidRun(c, s, steps)
    decreases |steps|
  {
    if steps == [] then 0
    else (if HandsOver(c, s, steps[0], id) then 1 else 0) + HandOvers(c, Next(c, s, steps[0]), steps[1..], id)
  }

  lemma StepDelivers(c: Config, s: State, step: Step, id: BundleId)
    requires c.hasDeliverer && Enabled(s, step)
    ensures Deliveries(Next(c, s, step), id) == Deliveries(s, id) + (if HandsOver(c, s, step, id) then 1 else 0)
  {
    if step.Decide? {
      DecideDelivers(c, s, step.p, step.hasRoute, step.delivered, id);
    } else if step.Receive? {
      ReceiveMovesOne(c, s);
    }
  }

  /** On every run, overlapping passes or not, a bundle is delivered exactly as often as a pass decides on
      it while this hub is online, has a route to itself and a willing deliverer. */
  lemma {:induction false} DeliveriesAreHandOvers(c: Config, s: State, steps: seq<Step>, id: BundleId)
    requires c.hasDeliverer && ValidRun(c, s, steps)
    ensures Deliveries(Run(c, s, steps), id) == Deliveries(s, id) + HandOvers(c, s, steps, id)
    decreases |steps|
  {
    if steps != [] {
      StepDelivers(c, s, steps[0], id);
      DeliveriesAreHandOvers(c, Next(c, s, steps[0]), steps[1..], id);
    }
  }

  // ----- Without a route to self -----

  /** No pass finds a route for a bundle to this hub. */
  ghost predicate Routeless(c: Config, s: State, steps: seq<Step>)
    requires ValidRun(c, s, steps)
    decreases |steps|
  {
    steps == [] ||
    ((steps[0].Decide? && s.passes[steps[0].p].todo[0].bundle.dst == c.self ==> !steps[0].hasRoute) &&
     Routeless(c, Next(c, s, steps[0]), steps[1..]))
  }

  lemma {:induction false} RoutelessHandsNothing(c: Config, s: State, steps: seq<Step>, id: BundleId)
    requires ValidRun(c, s, steps) && Routeless(c, s, steps)
    ensures HandOvers(c, s, steps, id) == 0
    decreases |steps|
  {
    if steps != [] {
      RoutelessHandsNothing(c, Next(c, s, steps[0]), steps[1..], id);
    }
  }

  /** If no pass finds a route to this hub, no self-addressed bundle is ever delivered: under every
      interleaving each is still queued, gathering retries, or has expired. */
  lemma SelfBundlesAreStuck(c: Config, steps: seq<Step>, id: BundleId)
    requires c.hasDeliverer && ValidRun(c, EMPTY, steps) && Routeless(c, EMPTY, steps)
    requires ForUs(c, Run(c, EMPTY, steps), id)
    ensures var s := Run(c, EMPTY, steps); Deliveries(s, id) == 0 && (id in s.queue <==> !HasExpired(s, id))
  {
    var s := Run(c, EMPTY, steps);
    RunKeepsInv(c, EMPTY, steps);
    RoutelessHandsNothing(c, EMPTY, steps, id);
    DeliveriesAreHandOvers(c, EMPTY, steps, id);
    if id in s.queue {
      QueuedIsNotExpired(c, s, id);
    } else {
      GoneIsDelivered(c, s, id);
    }
  }

  /** And no pass ever does find one: with the routes of any reachable mesh, a pass hands nothing to the
      local deliverer and leaves every self-addressed bundle it lists in the queue, one retry older. */
  lemma HubNeverDeliversToItself(g: OgmNetwork.NetConfig, net: seq<OgmNetwork.Step>, v: DtnEngine.Situation,
                                 q: Queue, items: seq<Item>, id: BundleId)
    requires OgmNetwork.ConfigWf(g) && OgmNetwork.ValidRun(g, OgmNetwork.Init(g), net)
    requires var n := OgmNetwork.Run(g, OgmNetwork.Init(g), net); v.self in n.hubs && v.routes == n.hubs[v.self].tables.routes
    requires id in q && q[id].dst == v.self && id in DtnEngine.Ids(items)
    ensures !DtnEngine.Leaves(v, v.self) && DtnEngine.LocalPayloads(items, v) == []
    ensures var q' := DtnEngine.Handled(q, DtnEngine.Ids(items), v);
            id in q' && q'[id] == q[id].(retries := q[id].retries + 1)
  {
    OgmPaths.NoRouteToSelf(g, net, v.self);
    DtnEngine.LocalDeliveryExactly(items, v);
  }
}
