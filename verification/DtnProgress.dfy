/** What a pass finds deliverable leaves the queue, under every interleaving: the other half of why bundles go. */
module DtnProgress {
  import opened DtnQueue
  import opened DtnRuns

  /** Pass p is about to delete the bundle. */
  predicate Deleting(s: State, p: PassId, id: BundleId) {
    p in s.passes && s.passes[p].Writing? && s.passes[p].id == id && s.passes[p].action == Dequeue
  }

  /** Whatever a pass saw online with a route, and handed over if it is for this hub, is gone or about to go; it
      hands over only what it saw so. */
  ghost predicate Leaving(c: Config, s: State) {
    && (forall p, id :: Justified(c, s, p, id) ==> id !in s.queue || Deleting(s, p, id))
    && (forall p, id :: Handed(p, id) in s.log ==> Routed(p, id) in s.log)
  }

  /** A step that logs no sighting and no hand-over, and neither adds to the queue nor stops a deletion. */
  lemma NothingNew(c: Config, s: State, s': State)
    requires Inv(c, s) && Leaving(c, s)
    requires forall p, id :: (Routed(p, id) in s'.log <==> Routed(p, id) in s.log) && (Handed(p, id) in s'.log ==> Handed(p, id) in s.log)
    requires forall id :: id in s.born ==> id in s'.born && s'.born[id] == s.born[id] && (id in s'.queue ==> id in s.queue)
    requires forall p, id :: Deleting(s, p, id) ==> Deleting(s', p, id) || id !in s'.queue
    ensures Leaving(c, s')
  {
    forall p, id | Justified(c, s', p, id) ensures id !in s'.queue || Deleting(s', p, id) {
      assert EventOk(c, s, Routed(p, id));
      assert Justified(c, s, p, id);
    }
  }

  lemma DecideLeaves(c: Config, s: State, p: PassId, hasRoute: bool, delivered: bool)
    requires Inv(c, s) && Leaving(c, s) && Enabled(s, Decide(p, hasRoute, delivered))
    ensures Leaving(c, Next(c, s, Decide(p, hasRoute, delivered)))
  {
    var s' := Next(c, s, Decide(p, hasRoute, delivered));
    var w, it := s.passes[p], s.passes[p].todo[0];
    assert PassOk(c, s, p, w) && it in TodoOf(w);
    forall q, id | Justified(c, s', q, id) ensures id !in s'.queue || Deleting(s', q, id) {
      if Justified(c, s, q, id) {
        assert Deleting(s, q, id) ==> q != p;
      } else {
        assert q == p && id == it.id;
      }
    }
  }

  lemma WriteLeaves(c: Config, s: State, p: PassId)
    requires Inv(c, s) && Leaving(c, s) && Enabled(s, Write(p))
    ensures Leaving(c, Next(c, s, Write(p)))
  {
    var s' := Next(c, s, Write(p));
    forall q, id | Deleting(s, q, id) ensures Deleting(s', q, id) || id !in s'.queue {
    }
    NothingNew(c, s, s');
  }

  lemma BeginLeaves(c: Config, s: State, step: Step)
    requires Inv(c, s) && Leaving(c, s) && step.Begin? && Enabled(s, step)
    ensures Leaving(c, Next(c, s, step))
  {
    var s' := Next(c, s, step);
    assert forall e :: e in ExpiredEvents(step.gone, step.now) ==> e.Expired?;
    NothingNew(c, s, s');
  }

  lemma NextLeaves(c: Config, s: State, step: Step)
    requires Inv(c, s) && Leaving(c, s) && Enabled(s, step)
    ensures Leaving(c, Next(c, s, step))
  {
    match step
    case Decide(p, hasRoute, delivered) => DecideLeaves(c, s, p, hasRoute, delivered);
    case Write(p) => WriteLeaves(c, s, p);
    case Begin(_, _, _) => BeginLeaves(c, s, step);
    case _ => NothingNew(c, s, Next(c, s, step));
  }

  lemma {:induction false} RunLeaves(c: Config, s: State, steps: seq<Step>)
    requires Inv(c, s) && Leaving(c, s) && ValidRun(c, s, steps)
    ensures Leaving(c, Run(c, s, steps))
    decreases |steps|
  {
    if steps != [] {
      NextLeaves(c, s, steps[0]);
      NextKeepsInv(c, s, steps[0]);
      RunLeaves(c, Next(c, s, steps[0]), steps[1..]);
    }
  }

  /** Under every interleaving: a bundle whose destination a pass saw online with a route, and which it handed over
      if it is for this hub, is no longer queued once the pass has written its decision. */
  lemma SightedBundlesLeave(c: Config, steps: seq<Step>, p: PassId, id: BundleId)
    requires ValidRun(c, EMPTY, steps)
    requires var s := Run(c, EMPTY, steps);
             && id in s.born && Routed(p, id) in s.log
             && (s.born[id].dst == c.self && c.hasDeliverer ==> Handed(p, id) in s.log)
             && !(p in s.passes && s.passes[p].Writing?)
    ensures id !in Run(c, EMPTY, steps).queue
  {
    RunLeaves(c, EMPTY, steps);
    assert Justified(c, Run(c, EMPTY, steps), p, id);
  }

  /** What a pass decides on a bundle: to delete it exactly if it saw the destination online and finds a route, and
      the local deliverer takes it if it is for this hub. */
  lemma DecidesExactly(c: Config, s: State, p: PassId, hasRoute: bool, delivered: bool)
    requires Enabled(s, Decide(p, hasRoute, delivered))
    ensures var s', it := Next(c, s, Decide(p, hasRoute, delivered)), s.passes[p].todo[0];
            Deleting(s', p, it.id) <==>
            it.bundle.dst in s.passes[p].online && hasRoute && (it.bundle.dst == c.self && c.hasDeliverer ==> delivered)
  {
  }
}
