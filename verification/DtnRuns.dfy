/** Concurrent passes over the DTN queue, interleaved statement by statement
    (hub/internal/dtnengine/dtnengine.go, hub/internal/daemonapi/daemonapi.go). */
module DtnRuns {
  import opened Mesh
  import opened DtnQueue

  type PassId = nat

  datatype Action = Retry | Dequeue

  /** Where a pass of processOnce stands: it has swept expired bundles, has listed the queue, is
      working through the list, or is about to write its decision on one bundle. */
  datatype Pass =
    | Swept
    | Listed(todo: seq<Item>)
    | Working(todo: seq<Item>, online: set<NodeId>)
    | Writing(todo: seq<Item>, online: set<NodeId>, id: BundleId, action: Action)

  /** What happened, in order. Only effective removals and retries are logged. */
  datatype Event =
    | Expired(id: BundleId, at: int)
    | Routed(pass: PassId, id: BundleId)
    | Handed(pass: PassId, id: BundleId)
    | Dequeued(pass: PassId, id: BundleId)
    | RetryCounted(pass: PassId, id: BundleId)

  /** `born` remembers every bundle ever enqueued, as enqueued, and `begun` every pass ever started;
      `inbox` and `received` are the self-addressed bundles delivered locally, before and after an app
      took them. */
  datatype State = State(queue: Queue, born: Queue, passes: map<PassId, Pass>, begun: set<PassId>,
                         log: seq<Event>, inbox: seq<BundleId>, received: seq<BundleId>)

  datatype Config = Config(self: NodeId, hasDeliverer: bool)

  const EMPTY := State(map[], map[], map[], {}, [], [], [])

  datatype Step =
    | Enqueue(id: BundleId, src: NodeId, dst: NodeId, payload: seq<int>, expires: int)
    | Begin(p: PassId, now: int, gone: seq<BundleId>)
    | List(p: PassId, now: int, items: seq<Item>)
    | ReadOnline(p: PassId, online: set<NodeId>)
    | Decide(p: PassId, hasRoute: bool, delivered: bool)
    | Write(p: PassId)
    | End(p: PassId)
    | Receive

  /** `gone` names the expired bundles in the order they are deleted; random ids do not repeat, nor do passes. */
  ghost predicate Enabled(s: State, step: Step) {
    match step
    case Enqueue(id, _, _, _, _) => id !in s.born
    case Begin(p, now, gone) =>
      p !in s.begun && p !in s.passes && Distinct(gone) && forall id :: id in gone <==> id in s.queue && s.queue[id].expires <= now
    case List(p, now, items) => p in s.passes && s.passes[p].Swept? && ListsLive(items, s.queue, now)
    case ReadOnline(p, _) => p in s.passes && s.passes[p].Listed?
    case Decide(p, _, _) => p in s.passes && s.passes[p].Working? && s.passes[p].todo != []
    case Write(p) => p in s.passes && s.passes[p].Writing?
    case End(p) => p in s.passes && s.passes[p].Working? && s.passes[p].todo == []
    case Receive => true
  }

  /** deliverPending's choice for one bundle. */
  function Choose(c: Config, dst: NodeId, online: set<NodeId>, hasRoute: bool, delivered: bool): Action {
    if dst !in online then Retry
    else if !hasRoute then Retry
    else if dst == c.self && c.hasDeliverer && !delivered then Retry
    else Dequeue
  }

  function Decided(c: Config, s: State, p: PassId, hasRoute: bool, delivered: bool): State
    requires p in s.passes && s.passes[p].Working? && s.passes[p].todo != []
  {
    var w := s.passes[p];
    var it := w.todo[0];
    var action := Choose(c, it.bundle.dst, w.online, hasRoute, delivered);
    var local := it.bundle.dst == c.self && c.hasDeliverer && action == Dequeue;
    s.(passes := s.passes[p := Writing(w.todo[1..], w.online, it.id, action)],
       log := s.log + (if it.bundle.dst in w.online && hasRoute then [Routed(p, it.id)] else []) +
                      (if local then [Handed(p, it.id)] else []),
       inbox := if local then s.inbox + [it.id] else s.inbox)
  }

  function Written(s: State, p: PassId): State
    requires p in s.passes && s.passes[p].Writing?
  {
    var w := s.passes[p];
    var on := s.passes[p := Working(w.todo, w.online)];
    if w.id !in s.queue then s.(passes := on)
    else if w.action == Retry then
      s.(passes := on, queue := Retried(s.queue, w.id), log := s.log + [RetryCounted(p, w.id)])
    else
      s.(passes := on, queue := s.queue - {w.id}, log := s.log + [Dequeued(p, w.id)])
  }

  function ExpiredEvents(gone: seq<BundleId>, now: int): seq<Event> {
    seq(|gone|, i requires 0 <= i < |gone| => Expired(gone[i], now))
  }

  ghost function Next(c: Config, s: State, step: Step): State
    requires Enabled(s, step)
  {
    match step
    case Enqueue(id, src, dst, payload, expires) =>
      var b := Bundle(src, dst, payload, expires, 0);
      s.(queue := s.queue[id := b], born := s.born[id := b])
    case Begin(p, now, gone) =>
      s.(queue := Live(s.queue, now), passes := s.passes[p := Swept], begun := s.begun + {p}, log := s.log + ExpiredEvents(gone, now))
    case List(p, _, items) => s.(passes := s.passes[p := Listed(items)])
    case ReadOnline(p, online) => s.(passes := s.passes[p := Working(s.passes[p].todo, online)])
    case Decide(p, hasRoute, delivered) => Decided(c, s, p, hasRoute, delivered)
    case Write(p) => Written(s, p)
    case End(p) => s.(passes := s.passes - {p})
    case Receive =>
      if s.inbox == [] then s else s.(inbox := s.inbox[1..], received := s.received + [s.inbox[0]])
  }

  ghost predicate ValidRun(c: Config, s: State, steps: seq<Step>)
    decreases |steps|
  {
    steps == [] || (Enabled(s, steps[0]) && ValidRun(c, Next(c, s, steps[0]), steps[1..]))
  }

  ghost function Run(c: Config, s: State, steps: seq<Step>): State
    requires ValidRun(c, s, steps)
    decreases |steps|
  {
    if steps == [] then s else Run(c, Next(c, s, steps[0]), steps[1..])
  }

  lemma ConsRun(c: Config, s: State, step: Step, rest: seq<Step>)
    requires Enabled(s, step) && ValidRun(c, Next(c, s, step), rest)
    ensures ValidRun(c, s, [step] + rest) && Run(c, s, [step] + rest) == Run(c, Next(c, s, step), rest)
  {
    assert ([step] + rest)[1..] == rest;
  }

  lemma {:induction false} RunConcat(c: Config, s: State, a: seq<Step>, b: seq<Step>)
    requires ValidRun(c, s, a) && ValidRun(c, Run(c, s, a), b)
    ensures ValidRun(c, s, a + b) && Run(c, s, a + b) == Run(c, Run(c, s, a), b)
    decreases |a|
  {
    if a == [] {
      assert a + b == b;
    } else {
      assert (a + b)[1..] == a[1..] + b;
      RunConcat(c, Next(c, s, a[0]), a[1..], b);
    }
  }

  lemma RunSnoc(c: Config, s: State, steps: seq<Step>, last: Step)
    requires ValidRun(c, s, steps) && Enabled(Run(c, s, steps), last)
    ensures ValidRun(c, s, steps + [last]) && Run(c, s, steps + [last]) == Next(c, Run(c, s, steps), last)
  {
    ConsRun(c, Run(c, s, steps), last, []);
    assert [last] + [] == [last];
    RunConcat(c, s, steps, [last]);
  }

  // ----- Counting -----

  predicate Removes(e: Event, id: BundleId) {
    (e.Expired? || e.Dequeued?) && e.id == id
  }

  function Removals(log: seq<Event>, id: BundleId): nat {
    if log == [] then 0 else (if Removes(log[0], id) then 1 else 0) + Removals(log[1..], id)
  }

  function RetriesCounted(log: seq<Event>, id: BundleId): nat {
    if log == [] then 0
    else (if log[0].RetryCounted? && log[0].id == id then 1 else 0) + RetriesCounted(log[1..], id)
  }

  /** The bundles handed to the local deliverer, in order. */
  function HandedOver(log: seq<Event>): seq<BundleId> {
    if log == [] then [] else (if log[0].Handed? then [log[0].id] else []) + HandedOver(log[1..])
  }

  lemma {:induction false} CountsConcat(a: seq<Event>, b: seq<Event>, id: BundleId)
    ensures Removals(a + b, id) == Removals(a, id) + Removals(b, id)
    ensures RetriesCounted(a + b, id) == RetriesCounted(a, id) + RetriesCounted(b, id)
    ensures HandedOver(a + b) == HandedOver(a) + HandedOver(b)
  {
    if a == [] {
      assert a + b == b;
    } else {
      assert (a + b)[0] == a[0] && (a + b)[1..] == a[1..] + b;
      CountsConcat(a[1..], b, id);
      var first := if a[0].Handed? then [a[0].id] else [];
      assert first + (HandedOver(a[1..]) + HandedOver(b)) == (first + HandedOver(a[1..])) + HandedOver(b);
    }
  }

  lemma CountOne(e: Event, id: BundleId)
    ensures Removals([e], id) == if Removes(e, id) then 1 else 0
    ensures RetriesCounted([e], id) == if e.RetryCounted? && e.id == id then 1 else 0
    ensures HandedOver([e]) == if e.Handed? then [e.id] else []
  {
    assert [e][1..] == [];
  }

  lemma {:induction false} CountExpired(gone: seq<BundleId>, now: int, id: BundleId)
    requires Distinct(gone)
    ensures Removals(ExpiredEvents(gone, now), id) == if id in gone then 1 else 0
    ensures RetriesCounted(ExpiredEvents(gone, now), id) == 0
    ensures HandedOver(ExpiredEvents(gone, now)) == []
  {
    if gone != [] {
      assert ExpiredEvents(gone, now)[1..] == ExpiredEvents(gone[1..], now);
      CountExpired(gone[1..], now, id);
    }
  }

  // ----- What every interleaving keeps -----

  /** The same bundle, apart from its retry count. */
  predicate SameBundle(a: Bundle, b: Bundle) {
    a.(retries := 0) == b.(retries := 0)
  }

  function TodoOf(w: Pass): seq<Item> {
    if w.Swept? then [] else w.todo
  }

  /** A queued bundle is as it was enqueued; it was never removed if queued and removed once if not;
      its retry count is the number of retries written for it. */
  ghost predicate Accounted(s: State, id: BundleId) {
    if id in s.born then
      && s.born[id].retries == 0
      && Removals(s.log, id) == (if id in s.queue then 0 else 1)
      && (id in s.queue ==> SameBundle(s.queue[id], s.born[id]) && s.queue[id].retries == RetriesCounted(s.log, id))
    else id !in s.queue && Removals(s.log, id) == 0 && RetriesCounted(s.log, id) == 0
  }

  /** Why a pass may remove a bundle: it saw the destination online and routed, and if the bundle is
      for this hub, it has handed it to the local deliverer. */
  ghost predicate Justified(c: Config, s: State, p: PassId, id: BundleId) {
    && id in s.born && Routed(p, id) in s.log
    && (s.born[id].dst == c.self && c.hasDeliverer ==> Handed(p, id) in s.log)
  }

  ghost predicate EventOk(c: Config, s: State, e: Event) {
    match e
    case Expired(id, at) => id in s.born && s.born[id].expires <= at
    case Dequeued(p, id) => Justified(c, s, p, id)
    case _ => e.id in s.born
  }

  ghost predicate PassOk(c: Config, s: State, p: PassId, w: Pass) {
    && (forall it :: it in TodoOf(w) ==> it.id in s.born && SameBundle(it.bundle, s.born[it.id]))
    && (w.Writing? ==> w.id in s.born && (w.action == Dequeue ==> Justified(c, s, p, w.id)))
  }

  ghost predicate Inv(c: Config, s: State) {
    && (forall id :: Accounted(s, id))
    && (forall e :: e in s.log ==> EventOk(c, s, e))
    && (forall p :: p in s.passes ==> PassOk(c, s, p, s.passes[p]))
    && s.received + s.inbox == HandedOver(s.log)
  }

  /** Everything but the queue and the passes only grows. */
  ghost predicate Grows(s: State, s': State) {
    && (forall id :: id in s.born ==> id in s'.born && s'.born[id] == s.born[id])
    && (forall e :: e in s.log ==> e in s'.log)
  }

  lemma GrowthKeeps(c: Config, s: State, s': State)
    requires Grows(s, s')
    ensures forall e :: EventOk(c, s, e) ==> EventOk(c, s', e)
    ensures forall p, w :: PassOk(c, s, p, w) ==> PassOk(c, s', p, w)
  {
  }

  lemma EnqueueKeepsInv(c: Config, s: State, step: Step)
    requires Inv(c, s) && step.Enqueue? && Enabled(s, step)
    ensures Inv(c, Next(c, s, step))
  {
    var s' := Next(c, s, step);
    GrowthKeeps(c, s, s');
    forall id ensures Accounted(s', id) {
      assert Accounted(s, id);
    }
  }

  lemma BeginKeepsInv(c: Config, s: State, step: Step)
    requires Inv(c, s) && step.Begin? && Enabled(s, step)
    ensures Inv(c, Next(c, s, step))
  {
    var s' := Next(c, s, step);
    var events := ExpiredEvents(step.gone, step.now);
    GrowthKeeps(c, s, s');
    forall id ensures Accounted(s', id) && HandedOver(s'.log) == HandedOver(s.log) {
      assert Accounted(s, id);
      CountsConcat(s.log, events, id);
      CountExpired(step.gone, step.now, id);
    }
    assert HandedOver(s'.log) == HandedOver(s.log) by {
      assert Accounted(s', 0);
    }
    forall e | e in s'.log ensures EventOk(c, s', e) {
      if e !in s.log {
        var i :| 0 <= i < |step.gone| && events[i] == e;
        assert step.gone[i] in step.gone;
        assert Accounted(s, step.gone[i]);
      }
    }
  }

  lemma PlanKeepsInv(c: Config, s: State, step: Step)
    requires Inv(c, s) && (step.List? || step.ReadOnline? || step.End? || step.Receive?) && Enabled(s, step)
    ensures Inv(c, Next(c, s, step))
  {
    var s' := Next(c, s, step);
    GrowthKeeps(c, s, s');
    forall id ensures Accounted(s', id) {
      assert Accounted(s, id);
    }
    if step.List? {
      forall it | it in step.items ensures it.id in s'.born && SameBundle(it.bundle, s'.born[it.id]) {
        assert Accounted(s, it.id);
      }
    }
  }

  /** What deciding adds to the log removes nothing and counts no retry. */
  lemma DecisionCounts(log: seq<Event>, p: PassId, b: BundleId, routed: bool, handed: bool, id: BundleId)
    ensures var more := (if routed then [Routed(p, b)] else []) + (if handed then [Handed(p, b)] else []);
            && Removals(log + more, id) == Removals(log, id) && RetriesCounted(log + more, id) == RetriesCounted(log, id)
            && HandedOver(log + more) == HandedOver(log) + (if handed then [b] else [])
  {
    var first, second := if routed then [Routed(p, b)] else [], if handed then [Handed(p, b)] else [];
    CountsConcat(log, first + second, id);
    CountsConcat(first, second, id);
    CountOne(Routed(p, b), id);
    CountOne(Handed(p, b), id);
  }

  lemma DecideKeepsInv(c: Config, s: State, p: PassId, hasRoute: bool, delivered: bool)
    requires Inv(c, s) && Enabled(s, Decide(p, hasRoute, delivered))
    ensures Inv(c, Next(c, s, Decide(p, hasRoute, delivered)))
  {
    var s' := Next(c, s, Decide(p, hasRoute, delivered));
    var w, it := s.passes[p], s.passes[p].todo[0];
    assert PassOk(c, s, p, w) && it in TodoOf(w);
    var routed := it.bundle.dst in w.online && hasRoute;
    var local := it.bundle.dst == c.self && c.hasDeliverer && s'.passes[p].action == Dequeue;
    assert s'.log == s.log + ((if routed then [Routed(p, it.id)] else []) + (if local then [Handed(p, it.id)] else []));
    forall id ensures Accounted(s', id) {
      assert Accounted(s, id);
      DecisionCounts(s.log, p, it.id, routed, local, id);
    }
    DecisionCounts(s.log, p, it.id, routed, local, 0);
    GrowthKeeps(c, s, s');
    assert s'.passes[p].action == Dequeue ==> Routed(p, it.id) in s'.log;
    assert PassOk(c, s', p, s'.passes[p]);
  }

  lemma WriteKeepsInv(c: Config, s: State, p: PassId)
    requires Inv(c, s) && Enabled(s, Write(p))
    ensures Inv(c, Next(c, s, Write(p)))
  {
    var s' := Next(c, s, Write(p));
    var w := s.passes[p];
    assert PassOk(c, s, p, w);
    var e := if w.action == Retry then RetryCounted(p, w.id) else Dequeued(p, w.id);
    assert s'.log == if w.id in s.queue then s.log + [e] else s.log;
    forall id ensures Accounted(s', id) && HandedOver(s'.log) == HandedOver(s.log) {
      assert Accounted(s, id);
      CountsConcat(s.log, [e], id);
      CountOne(e, id);
    }
    assert Accounted(s', 0);
    GrowthKeeps(c, s, s');
    assert EventOk(c, s, e);
  }

  lemma NextKeepsInv(c: Config, s: State, step: Step)
    requires Inv(c, s) && Enabled(s, step)
    ensures Inv(c, Next(c, s, step))
  {
    match step
    case Enqueue(_, _, _, _, _) => EnqueueKeepsInv(c, s, step);
    case Begin(_, _, _) => BeginKeepsInv(c, s, step);
    case Decide(p, hasRoute, delivered) => DecideKeepsInv(c, s, p, hasRoute, delivered);
    case Write(p) => WriteKeepsInv(c, s, p);
    case List(_, _, _) => PlanKeepsInv(c, s, step);
    case ReadOnline(_, _) => PlanKeepsInv(c, s, step);
    case End(_) => PlanKeepsInv(c, s, step);
    case Receive => PlanKeepsInv(c, s, step);
  }

  lemma {:induction false} RunKeepsInv(c: Config, s: State, steps: seq<Step>)
    requires Inv(c, s) && ValidRun(c, s, steps)
    ensures Inv(c, Run(c, s, steps))
    decreases |steps|
  {
    if steps != [] {
      NextKeepsInv(c, s, steps[0]);
      RunKeepsInv(c, Next(c, s, steps[0]), steps[1..]);
    }
  }

  /** Under every interleaving of passes: each enqueued bundle is queued, unchanged but for its retry
      count, or was removed exactly once; the count is the number of passes that wrote a retry. */
  lemma BundlesAreAccountedFor(c: Config, steps: seq<Step>, id: BundleId)
    requires ValidRun(c, EMPTY, steps) && id in Run(c, EMPTY, steps).born
    ensures var s := Run(c, EMPTY, steps);
            && Removals(s.log, id) == (if id in s.queue then 0 else 1)
            && (id in s.queue ==> SameBundle(s.queue[id], s.born[id]) && s.queue[id].retries == RetriesCounted(s.log, id))
  {
    RunKeepsInv(c, EMPTY, steps);
    assert Accounted(Run(c, EMPTY, steps), id);
  }

  /** And no removal is without cause: expiry strikes at or after the deadline, and a pass dequeues only
      what it saw online with a route, after handing it over if it is for this hub. */
  lemma RemovalsAreJustified(c: Config, steps: seq<Step>, e: Event)
    requires ValidRun(c, EMPTY, steps) && e in Run(c, EMPTY, steps).log
    ensures var s := Run(c, EMPTY, steps);
            && (e.Expired? ==> e.id in s.born && s.born[e.id].expires <= e.at)
            && (e.Dequeued? ==>
                  && e.id in s.born && Routed(e.pass, e.id) in s.log
                  && (s.born[e.id].dst == c.self && c.hasDeliverer ==> Handed(e.pass, e.id) in s.log))
  {
    RunKeepsInv(c, EMPTY, steps);
    assert EventOk(c, Run(c, EMPTY, steps), e);
  }

  /** What apps have received is, in order, the beginning of what was delivered locally. */
  lemma ReceivedInOrder(c: Config, steps: seq<Step>)
    requires ValidRun(c, EMPTY, steps)
    ensures var s := Run(c, EMPTY, steps);
            s.received <= HandedOver(s.log) && HandedOver(s.log) == s.received + s.inbox
  {
    RunKeepsInv(c, EMPTY, steps);
  }
}
