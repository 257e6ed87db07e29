/** Exactly-once local delivery when passes do not overlap, and what happens when they do. */
module DtnSolo {
  import opened DtnQueue
  import opened DtnRuns

  /** A pass starts only when no other is under way. */
  predicate StartsAlone(s: State, step: Step) {
    step.Begin? ==> s.passes == map[]
  }

  ghost predicate SoloRun(c: Config, s: State, steps: seq<Step>)
    requires ValidRun(c, s, steps)
    decreases |steps|
  {
    steps == [] || (StartsAlone(s, steps[0]) && SoloRun(c, Next(c, s, steps[0]), steps[1..]))
  }

  /** How often the bundle was delivered to the local inbox. */
  function Deliveries(s: State, id: BundleId): nat {
    multiset(s.received + s.inbox)[id]
  }

  ghost predicate HasExpired(s: State, id: BundleId) {
    exists at: int :: Expired(id, at) in s.log
  }

  /** Some pass has handed the bundle over and is about to delete it. */
  ghost predicate AboutToDelete(s: State, id: BundleId) {
    exists p :: p in s.passes && s.passes[p].Writing? && s.passes[p].id == id && s.passes[p].action == Dequeue
  }

  predicate ForUs(c: Config, s: State, id: BundleId) {
    id in s.born && s.born[id].dst == c.self
  }

  ghost predicate Placed(c: Config, s: State, id: BundleId) {
    ForUs(c, s, id) ==>
      && Deliveries(s, id) <= 1
      && (Deliveries(s, id) == 1 ==> !HasExpired(s, id) && (id in s.queue ==> AboutToDelete(s, id)))
  }

  /** The one pass under way works on distinct queued bundles that it has not delivered yet. */
  ghost predicate PassSolo(c: Config, s: State, w: Pass) {
    && DistinctIds(TodoOf(w))
    && (forall it :: it in TodoOf(w) ==> it.id in s.queue && (ForUs(c, s, it.id) ==> Deliveries(s, it.id) == 0))
    && (w.Writing? ==>
          && w.id in s.queue
          && (forall it :: it in w.todo ==> it.id != w.id)
          && (ForUs(c, s, w.id) && w.action == Retry ==> Deliveries(s, w.id) == 0))
  }

  ghost predicate Solo(c: Config, s: State) {
    && c.hasDeliverer && Inv(c, s)
    && (forall p, q :: p in s.passes && q in s.passes ==> p == q)
    && (forall p :: p in s.passes ==> PassSolo(c, s, s.passes[p]))
    && (forall id :: Placed(c, s, id))
  }

  lemma EnqueueSolo(c: Config, s: State, step: Step)
    requires Solo(c, s) && step.Enqueue? && Enabled(s, step)
    ensures Solo(c, Next(c, s, step))
  {
    var s' := Next(c, s, step);
    NextKeepsInv(c, s, step);
    DeliveredWasBorn(c, s, step.id);
    forall id ensures Placed(c, s', id) {
      assert Placed(c, s, id);
      if AboutToDelete(s, id) {
        var p :| p in s.passes && s.passes[p].Writing? && s.passes[p].id == id && s.passes[p].action == Dequeue;
        assert p in s'.passes;
      }
    }
    forall p | p in s'.passes ensures PassSolo(c, s', s'.passes[p]) {
      assert PassSolo(c, s, s.passes[p]) && PassOk(c, s, p, s.passes[p]);
    }
  }

  lemma {:induction false} HandedMembers(log: seq<Event>, id: BundleId)
    ensures id in HandedOver(log) <==> exists p: PassId :: Handed(p, id) in log
  {
    if log != [] {
      HandedMembers(log[1..], id);
      if log[0].Handed? && log[0].id == id {
        assert Handed(log[0].pass, id) in log;
      }
      if id in HandedOver(log[1..]) {
        var p: PassId :| Handed(p, id) in log[1..];
        assert Handed(p, id) in log;
      }
    }
  }

  lemma DeliveredWasBorn(c: Config, s: State, id: BundleId)
    requires Inv(c, s)
    ensures Deliveries(s, id) > 0 ==> id in s.born
    ensures HasExpired(s, id) ==> id in s.born
  {
    HandedMembers(s.log, id);
    if id in s.received + s.inbox {
      var p: PassId :| Handed(p, id) in s.log;
      assert EventOk(c, s, Handed(p, id));
    }
    if HasExpired(s, id) {
      var at: int :| Expired(id, at) in s.log;
      assert EventOk(c, s, Expired(id, at));
    }
  }

  lemma BeginSolo(c: Config, s: State, step: Step)
    requires Solo(c, s) && step.Begin? && Enabled(s, step) && StartsAlone(s, step)
    ensures Solo(c, Next(c, s, step))
  {
    var s' := Next(c, s, step);
    NextKeepsInv(c, s, step);
    var events := ExpiredEvents(step.gone, step.now);
    forall id ensures Placed(c, s', id) {
      assert Placed(c, s, id);
      if HasExpired(s', id) && !HasExpired(s, id) {
        var at: int :| Expired(id, at) in s'.log;
        assert Expired(id, at) in events;
        assert id in step.gone;
      }
    }
  }

  /** Only a pass that is writing can be about to delete something. */
  lemma NotDeleting(c: Config, s: State, p: PassId, id: BundleId)
    requires Solo(c, s) && p in s.passes && !s.passes[p].Writing?
    ensures !AboutToDelete(s, id)
  {
  }

  /** A step that only moves the pass along leaves every bundle where it is. */
  lemma PlacedStays(c: Config, s: State, s': State, id: BundleId)
    requires Placed(c, s, id) && !AboutToDelete(s, id)
    requires s'.born == s.born && s'.queue == s.queue && s'.log == s.log
    requires s'.received + s'.inbox == s.received + s.inbox
    ensures Placed(c, s', id)
  {
    assert HasExpired(s', id) ==> HasExpired(s, id);
  }

  lemma PlanSolo(c: Config, s: State, step: Step)
    requires Solo(c, s) && (step.List? || step.ReadOnline? || step.End?) && Enabled(s, step)
    ensures Solo(c, Next(c, s, step))
  {
    var s' := Next(c, s, step);
    NextKeepsInv(c, s, step);
    forall id ensures Placed(c, s', id) {
      assert Placed(c, s, id);
      NotDeleting(c, s, step.p, id);
      PlacedStays(c, s, s', id);
    }
    assert PassSolo(c, s, s.passes[step.p]);
    if step.List? {
      ListedAreUndelivered(c, s, step.p, step.now, step.items);
    }
  }

  lemma ListedAreUndelivered(c: Config, s: State, p: PassId, now: int, items: seq<Item>)
    requires Solo(c, s) && Enabled(s, List(p, now, items))
    ensures PassSolo(c, s, Listed(items))
  {
    forall it | it in items ensures it.id in s.queue && (ForUs(c, s, it.id) ==> Deliveries(s, it.id) == 0) {
      assert Placed(c, s, it.id);
      NotDeleting(c, s, p, it.id);
    }
  }

  /** Taking a payload out of the inbox only moves the mark between received and waiting. */
  lemma ReceiveMovesOne(c: Config, s: State)
    ensures var s' := Next(c, s, Receive);
            && s'.received + s'.inbox == s.received + s.inbox
            && s'.(received := s.received, inbox := s.inbox) == s
  {
  }

  lemma ReceiveSolo(c: Config, s: State)
    requires Solo(c, s)
    ensures Solo(c, Next(c, s, Receive))
  {
    var s' := Next(c, s, Receive);
    NextKeepsInv(c, s, Receive);
    ReceiveMovesOne(c, s);
    FrameSolo(c, s, s');
  }

  lemma FrameSolo(c: Config, s: State, s': State)
    requires Solo(c, s) && Inv(c, s')
    requires s'.received + s'.inbox == s.received + s.inbox && s'.(received := s.received, inbox := s.inbox) == s
    ensures Solo(c, s')
  {
    forall id ensures Deliveries(s', id) == Deliveries(s, id) {
    }
    forall id ensures Placed(c, s', id) {
      assert Placed(c, s, id);
      assert AboutToDelete(s', id) == AboutToDelete(s, id) && HasExpired(s', id) == HasExpired(s, id);
    }
    forall p | p in s'.passes ensures PassSolo(c, s', s'.passes[p]) {
      assert PassSolo(c, s, s.passes[p]);
    }
  }

  /** The effect of deciding on the bundle at the head of the list. */
  lemma DecideDelivers(c: Config, s: State, p: PassId, hasRoute: bool, delivered: bool, id: BundleId)
    requires c.hasDeliverer && Enabled(s, Decide(p, hasRoute, delivered))
    ensures var s', it := Next(c, s, Decide(p, hasRoute, delivered)), s.passes[p].todo[0];
            && s'.queue == s.queue && s'.born == s.born
            && s'.passes == s.passes[p := s'.passes[p]] && s'.passes[p].Writing? && s'.passes[p].id == it.id
            && s'.passes[p].todo == s.passes[p].todo[1..]
            && Deliveries(s', id) == Deliveries(s, id) +
               (if it.bundle.dst == c.self && s'.passes[p].action == Dequeue && id == it.id then 1 else 0)
            && (HasExpired(s', id) <==> HasExpired(s, id))
  {
    var s', it := Next(c, s, Decide(p, hasRoute, delivered)), s.passes[p].todo[0];
    var local := it.bundle.dst == c.self && s'.passes[p].action == Dequeue;
    assert s'.received + s'.inbox == if local then (s.received + s.inbox) + [it.id] else s.received + s.inbox;
    assert forall at: int :: Expired(id, at) in s'.log <==> Expired(id, at) in s.log;
  }

  lemma DecidePlaces(c: Config, s: State, p: PassId, hasRoute: bool, delivered: bool, id: BundleId)
    requires Solo(c, s) && Enabled(s, Decide(p, hasRoute, delivered))
    ensures Placed(c, Next(c, s, Decide(p, hasRoute, delivered)), id)
  {
    var s', it := Next(c, s, Decide(p, hasRoute, delivered)), s.passes[p].todo[0];
    assert PassSolo(c, s, s.passes[p]) && PassOk(c, s, p, s.passes[p]) && it in TodoOf(s.passes[p]);
    assert Placed(c, s, id);
    NotDeleting(c, s, p, id);
    DecideDelivers(c, s, p, hasRoute, delivered, id);
    QueuedIsNotExpired(c, s, it.id);
  }

  lemma DecidePassSolo(c: Config, s: State, p: PassId, hasRoute: bool, delivered: bool)
    requires Solo(c, s) && Enabled(s, Decide(p, hasRoute, delivered))
    ensures var s' := Next(c, s, Decide(p, hasRoute, delivered)); PassSolo(c, s', s'.passes[p])
  {
    var s' := Next(c, s, Decide(p, hasRoute, delivered));
    var w, it := s.passes[p], s.passes[p].todo[0];
    assert PassSolo(c, s, w) && PassOk(c, s, p, w) && it in TodoOf(w);
    forall id ensures Deliveries(s', id) == Deliveries(s, id) ||
                      (id == it.id && it.bundle.dst == c.self && s'.passes[p].action == Dequeue)
    {
      DecideDelivers(c, s, p, hasRoute, delivered, id);
    }
    DecideDelivers(c, s, p, hasRoute, delivered, it.id);
    forall x | x in w.todo[1..] ensures x.id != it.id && x in w.todo {
    }
  }

  /** Handing over the bundle at the head of the list is its first delivery. */
  lemma DecideSolo(c: Config, s: State, p: PassId, hasRoute: bool, delivered: bool)
    requires Solo(c, s) && Enabled(s, Decide(p, hasRoute, delivered))
    ensures Solo(c, Next(c, s, Decide(p, hasRoute, delivered)))
  {
    var step := Decide(p, hasRoute, delivered);
    NextKeepsInv(c, s, step);
    forall id ensures Placed(c, Next(c, s, step), id) {
      DecidePlaces(c, s, p, hasRoute, delivered, id);
    }
    DecidePassSolo(c, s, p, hasRoute, delivered);
  }

  lemma QueuedIsNotExpired(c: Config, s: State, id: BundleId)
    requires Inv(c, s) && id in s.queue
    ensures !HasExpired(s, id)
  {
    assert Accounted(s, id);
    if HasExpired(s, id) {
      var at: int :| Expired(id, at) in s.log;
      LoggedRemovalCounts(s.log, Expired(id, at), id);
    }
  }

  lemma {:induction false} LoggedRemovalCounts(log: seq<Event>, e: Event, id: BundleId)
    requires e in log && Removes(e, id)
    ensures Removals(log, id) >= 1
  {
    if log[0] != e {
      LoggedRemovalCounts(log[1..], e, id);
    }
  }

  lemma {:induction false} CountedRemovalLogged(log: seq<Event>, id: BundleId) returns (e: Event)
    requires Removals(log, id) >= 1
    ensures e in log && Removes(e, id)
  {
    if Removes(log[0], id) {
      e := log[0];
    } else {
      e := CountedRemovalLogged(log[1..], id);
    }
  }

  lemma WriteSolo(c: Config, s: State, p: PassId)
    requires Solo(c, s) && Enabled(s, Write(p))
    ensures Solo(c, Next(c, s, Write(p)))
  {
    var s' := Next(c, s, Write(p));
    var w := s.passes[p];
    NextKeepsInv(c, s, Write(p));
    assert PassSolo(c, s, w);
    forall id ensures Placed(c, s', id) {
      assert Placed(c, s, id);
      assert HasExpired(s', id) ==> HasExpired(s, id);
      if AboutToDelete(s, id) {
        assert id == w.id && w.action == Dequeue;
      }
    }
    assert PassSolo(c, s', s'.passes[p]);
  }

  lemma NextSolo(c: Config, s: State, step: Step)
    requires Solo(c, s) && Enabled(s, step) && StartsAlone(s, step)
    ensures Solo(c, Next(c, s, step))
  {
    match step
    case Enqueue(_, _, _, _, _) => EnqueueSolo(c, s, step);
    case Begin(_, _, _) => BeginSolo(c, s, step);
    case Decide(p, hasRoute, delivered) => DecideSolo(c, s, p, hasRoute, delivered);
    case Write(p) => WriteSolo(c, s, p);
    case List(_, _, _) => PlanSolo(c, s, step);
    case ReadOnline(_, _) => PlanSolo(c, s, step);
    case End(_) => PlanSolo(c, s, step);
    case Receive => ReceiveSolo(c, s);
  }

  lemma {:induction false} RunSolo(c: Config, s: State, steps: seq<Step>)
    requires Solo(c, s) && ValidRun(c, s, steps) && SoloRun(c, s, steps)
    ensures Solo(c, Run(c, s, steps))
    decreases |steps|
  {
    if steps != [] {
      NextSolo(c, s, steps[0]);
      RunSolo(c, Next(c, s, steps[0]), steps[1..]);
    }
  }

  /** A self-addressed bundle that is no longer queued has expired or was delivered. */
  lemma GoneIsDelivered(c: Config, s: State, id: BundleId)
    requires c.hasDeliverer && Inv(c, s) && ForUs(c, s, id) && id !in s.queue
    ensures HasExpired(s, id) || Deliveries(s, id) >= 1
  {
    assert Accounted(s, id);
    var e := CountedRemovalLogged(s.log, id);
    assert EventOk(c, s, e);
    if e.Expired? {
      assert Expired(id, e.at) in s.log;
    } else {
      assert Handed(e.pass, id) in s.log;
      HandedMembers(s.log, id);
    }
  }

  /** Passes run one at a time, a deliverer is set, and any routing table is used: except while a pass
      is between delivering a bundle and deleting it, every self-addressed bundle ever enqueued is in
      exactly one place, the queue, the expired ones, or once among those the inbox has taken in. */
  lemma ExactlyOnePlace(c: Config, steps: seq<Step>, id: BundleId)
    requires c.hasDeliverer && ValidRun(c, EMPTY, steps) && SoloRun(c, EMPTY, steps)
    requires var s := Run(c, EMPTY, steps); ForUs(c, s, id) && !AboutToDelete(s, id)
    ensures var s := Run(c, EMPTY, steps);
            (if id in s.queue then 1 else 0) + (if HasExpired(s, id) then 1 else 0) + Deliveries(s, id) == 1
  {
    RunSolo(c, EMPTY, steps);
    var s := Run(c, EMPTY, steps);
    assert Placed(c, s, id);
    if id in s.queue {
      QueuedIsNotExpired(c, s, id);
    } else {
      GoneIsDelivered(c, s, id);
    }
  }

  // ----- Overlapping passes -----

  /** Two passes have each listed the one bundle, which is for this hub, and seen it online. */
  predicate BothListed(c: Config, s: State, it: Item) {
    && s.passes == map[0 := Working([it], {c.self}), 1 := Working([it], {c.self})]
    && it.bundle.dst == c.self && s.inbox == [] && s.received == []
  }

  lemma BothDeliver(c: Config, s: State, it: Item)
    requires c.hasDeliverer && BothListed(c, s, it)
    ensures var a, b := Decide(0, true, true), Decide(1, true, true);
            Enabled(s, a) && Enabled(Next(c, s, a), b) && Next(c, Next(c, s, a), b).inbox == [it.id, it.id]
  {
  }

  /** Both passes get there: the ticker starts one, a route change the other, before either delivers. */
  lemma BothList(c: Config, it: Item) returns (steps: seq<Step>, s: State)
    requires it == Item(7, Bundle(1, c.self, [42], 100, 0))
    ensures ValidRun(c, EMPTY, steps) && s == Run(c, EMPTY, steps) && BothListed(c, s, it)
  {
    var s1 := Next(c, EMPTY, Enqueue(7, 1, c.self, [42], 100));
    assert s1.queue == map[7 := it.bundle] && Live(s1.queue, 0) == s1.queue;
    assert ListsLive([it], s1.queue, 0);
    var s2 := Next(c, s1, Begin(0, 0, []));
    var s3 := Next(c, s2, List(0, 0, [it]));
    var s4 := Next(c, s3, ReadOnline(0, {c.self}));
    var s5 := Next(c, s4, Begin(1, 0, []));
    assert s5.queue == s1.queue;
    var s6 := Next(c, s5, List(1, 0, [it]));
    s := Next(c, s6, ReadOnline(1, {c.self}));
    steps := [];
    ConsRun(c, s6, ReadOnline(1, {c.self}), steps);
    steps := [ReadOnline(1, {c.self})] + steps;
    ConsRun(c, s5, List(1, 0, [it]), steps);
    steps := [List(1, 0, [it])] + steps;
    ConsRun(c, s4, Begin(1, 0, []), steps);
    steps := [Begin(1, 0, [])] + steps;
    ConsRun(c, s3, ReadOnline(0, {c.self}), steps);
    steps := [ReadOnline(0, {c.self})] + steps;
    ConsRun(c, s2, List(0, 0, [it]), steps);
    steps := [List(0, 0, [it])] + steps;
    ConsRun(c, s1, Begin(0, 0, []), steps);
    steps := [Begin(0, 0, [])] + steps;
    ConsRun(c, EMPTY, Enqueue(7, 1, c.self, [42], 100), steps);
    steps := [Enqueue(7, 1, c.self, [42], 100)] + steps;
  }

  /** Running passes one at a time is needed: nothing in the engine enforces it, and two overlapping
      passes can put the same bundle in the inbox twice. */
  lemma OverlappingPassesDeliverTwice(c: Config) returns (steps: seq<Step>, s: State)
    requires c.hasDeliverer
    ensures ValidRun(c, EMPTY, steps) && s == Run(c, EMPTY, steps)
    ensures Enabled(s, Decide(0, true, true)) && Enabled(Next(c, s, Decide(0, true, true)), Decide(1, true, true))
    ensures Deliveries(Next(c, Next(c, s, Decide(0, true, true)), Decide(1, true, true)), 7) == 2
  {
    var it := Item(7, Bundle(1, c.self, [42], 100, 0));
    steps, s := BothList(c, it);
    BothDeliver(c, s, it);
    var s' := Next(c, Next(c, s, Decide(0, true, true)), Decide(1, true, true));
    assert s'.received + s'.inbox == [7, 7];
  }
}
