/** One uninterrupted pass of the DTN engine over queue, registry and local inbox
    (hub/internal/dtnengine/dtnengine.go). */
module DtnEngine {
  import opened Mesh
  import opened Registry
  import opened DtnQueue
  import opened DaemonApi
  import DtnRuns

  /** What a pass knows: the registry, this hub's id, and whether the local deliverer takes its bundles. */
  datatype Situation = Situation(nodes: NodeTable, routes: RouteTable, self: NodeId, accepts: bool)

  /** The pass removes a bundle for this destination: it is online, it has a route, and if it is this
      hub, the local deliverer takes the payload. */
  predicate Leaves(v: Situation, dst: NodeId) {
    IsOnline(v.nodes, dst) && dst in v.routes && (dst == v.self ==> v.accepts)
  }

  /** The queue once the bundles in `seen` were handled: those that leave are gone, the others have one
      more retry, the rest is untouched. */
  function Handled(q: Queue, seen: set<BundleId>, v: Situation): Queue {
    map id | id in q && !(id in seen && Leaves(v, q[id].dst)) ::
      if id in seen then q[id].(retries := q[id].retries + 1) else q[id]
  }

  /** What handling one bundle does to the queue. */
  function HandledItem(q: Queue, it: Item, v: Situation): Queue {
    if Leaves(v, it.bundle.dst) then q - {it.id} else Retried(q, it.id)
  }

  function LocalPayload(it: Item, v: Situation): seq<seq<int>> {
    if it.bundle.dst == v.self && Leaves(v, v.self) then [it.bundle.payload] else []
  }

  /** The payloads delivered to this hub, in list order. */
  function LocalPayloads(items: seq<Item>, v: Situation): seq<seq<int>> {
    if items == [] then []
    else LocalPayloads(items[..|items| - 1], v) + LocalPayload(items[|items| - 1], v)
  }

  function Ids(items: seq<Item>): set<BundleId> {
    set it | it in items :: it.id
  }

  lemma HandledOne(q: Queue, seen: set<BundleId>, it: Item, v: Situation)
    requires it.id in q && q[it.id] == it.bundle && it.id !in seen
    ensures Handled(q, seen + {it.id}, v) == HandledItem(Handled(q, seen, v), it, v)
  {
  }

  lemma HandledStep(q: Queue, now: int, items: seq<Item>, k: nat, v: Situation)
    requires ListsLive(items, q, now) && k < |items|
    ensures Handled(q, Ids(items[..k + 1]), v) == HandledItem(Handled(q, Ids(items[..k]), v), items[k], v)
  {
    assert items[k] in items;
    assert items[..k + 1] == items[..k] + [items[k]];
    assert Ids(items[..k + 1]) == Ids(items[..k]) + {items[k].id};
    HandledOne(q, Ids(items[..k]), items[k], v);
  }

  lemma ListedIds(q: Queue, now: int, items: seq<Item>)
    requires ListsLive(items, q, now)
    ensures Ids(items) == Live(q, now).Keys
  {
    forall id | id in Live(q, now) ensures id in Ids(items) {
      assert Item(id, q[id]) in items;
    }
  }

  // ----- The pass as a run of the interleaving model -----

  /** Handling the listed bundles one after the other. */
  function HandledItems(q: Queue, items: seq<Item>, v: Situation): Queue
    decreases |items|
  {
    if items == [] then q else HandledItems(HandledItem(q, items[0], v), items[1..], v)
  }

  lemma {:induction false} HandledItemsSnoc(q: Queue, items: seq<Item>, it: Item, v: Situation)
    ensures HandledItems(q, items + [it], v) == HandledItem(HandledItems(q, items, v), it, v)
    decreases |items|
  {
    if items == [] {
      assert (items + [it])[1..] == [];
    } else {
      assert (items + [it])[1..] == items[1..] + [it];
      HandledItemsSnoc(HandledItem(q, items[0], v), items[1..], it, v);
    }
  }

  /** For a listing of the queue, one by one comes to the same as all at once. */
  lemma {:induction false} HandledItemsIsHandled(q: Queue, now: int, items: seq<Item>, k: nat, v: Situation)
    requires ListsLive(items, q, now) && k <= |items|
    ensures HandledItems(q, items[..k], v) == Handled(q, Ids(items[..k]), v)
    decreases k
  {
    if k > 0 {
      var before, it := items[..k - 1], items[k - 1];
      calc {
        HandledItems(q, items[..k], v);
        { assert items[..k] == before + [it]; HandledItemsSnoc(q, before, it, v); }
        HandledItem(HandledItems(q, before, v), it, v);
        { HandledItemsIsHandled(q, now, items, k - 1, v); }
        HandledItem(Handled(q, Ids(before), v), it, v);
        { HandledStep(q, now, items, k - 1, v); }
        Handled(q, Ids(items[..k]), v);
      }
    }
  }

  /** What a pass logs about one bundle. */
  function EventsOf(p: DtnRuns.PassId, q: Queue, it: Item, v: Situation): seq<DtnRuns.Event> {
    (if IsOnline(v.nodes, it.bundle.dst) && it.bundle.dst in v.routes then [DtnRuns.Routed(p, it.id)] else []) +
    (if LocalPayload(it, v) != [] then [DtnRuns.Handed(p, it.id)] else []) +
    (if it.id !in q then []
     else if Leaves(v, it.bundle.dst) then [DtnRuns.Dequeued(p, it.id)] else [DtnRuns.RetryCounted(p, it.id)])
  }

  function PassEvents(p: DtnRuns.PassId, q: Queue, items: seq<Item>, v: Situation): seq<DtnRuns.Event>
    decreases |items|
  {
    if items == [] then [] else EventsOf(p, q, items[0], v) + PassEvents(p, HandledItem(q, items[0], v), items[1..], v)
  }

  /** The bundles a pass hands to the local deliverer, in list order. */
  function LocalIds(items: seq<Item>, v: Situation): seq<BundleId> {
    if items == [] then [] else (if LocalPayload(items[0], v) != [] then [items[0].id] else []) + LocalIds(items[1..], v)
  }

  /** The state of the interleaving model once pass p has worked through its list. */
  function PassDone(s: DtnRuns.State, p: DtnRuns.PassId, items: seq<Item>, online: set<NodeId>, v: Situation): DtnRuns.State {
    s.(queue := HandledItems(s.queue, items, v), passes := s.passes[p := DtnRuns.Working([], online)],
       log := s.log + PassEvents(p, s.queue, items, v), inbox := s.inbox + LocalIds(items, v))
  }

  /** One bundle takes two steps of the interleaving model. */
  lemma HandlingIsTwoSteps(c: DtnRuns.Config, s: DtnRuns.State, p: DtnRuns.PassId, v: Situation)
    requires c == DtnRuns.Config(v.self, true) && p in s.passes && s.passes[p].Working? && s.passes[p].todo != []
    requires s.passes[p].todo[0].bundle.dst in s.passes[p].online <==> IsOnline(v.nodes, s.passes[p].todo[0].bundle.dst)
    ensures var w, it := s.passes[p], s.passes[p].todo[0];
            var decide := DtnRuns.Decide(p, it.bundle.dst in v.routes, v.accepts);
            && DtnRuns.Enabled(s, decide)
            && DtnRuns.Enabled(DtnRuns.Next(c, s, decide), DtnRuns.Write(p))
            && DtnRuns.Next(c, DtnRuns.Next(c, s, decide), DtnRuns.Write(p)) ==
               s.(queue := HandledItem(s.queue, it, v), passes := s.passes[p := DtnRuns.Working(w.todo[1..], w.online)],
                  log := s.log + EventsOf(p, s.queue, it, v),
                  inbox := s.inbox + (if LocalPayload(it, v) != [] then [it.id] else []))
  {
    var w, it := s.passes[p], s.passes[p].todo[0];
    var decide := DtnRuns.Decide(p, it.bundle.dst in v.routes, v.accepts);
    var s1 := DtnRuns.Next(c, s, decide);
    assert DtnRuns.Choose(c, it.bundle.dst, w.online, it.bundle.dst in v.routes, v.accepts) ==
           if Leaves(v, it.bundle.dst) then DtnRuns.Dequeue else DtnRuns.Retry;
    assert s1.passes[p := DtnRuns.Working(w.todo[1..], w.online)] == s.passes[p := DtnRuns.Working(w.todo[1..], w.online)];
    assert it.id !in s.queue ==> HandledItem(s.queue, it, v) == s.queue;
  }

  /** An uninterrupted pass is one of the runs that the interleaving model allows, with the same effect on
      queue, inbox and log. */
  lemma {:induction false} PassIsARun(c: DtnRuns.Config, s: DtnRuns.State, p: DtnRuns.PassId, v: Situation)
    returns (steps: seq<DtnRuns.Step>)
    requires c == DtnRuns.Config(v.self, true) && p in s.passes && s.passes[p].Working?
    requires forall id :: id in s.passes[p].online <==> IsOnline(v.nodes, id)
    ensures DtnRuns.ValidRun(c, s, steps)
    ensures DtnRuns.Run(c, s, steps) == PassDone(s, p, s.passes[p].todo, s.passes[p].online, v)
    decreases |s.passes[p].todo|
  {
    var w := s.passes[p];
    if w.todo == [] {
      steps := [];
      assert s.passes[p := DtnRuns.Working([], w.online)] == s.passes;
    } else {
      var decide := DtnRuns.Decide(p, w.todo[0].bundle.dst in v.routes, v.accepts);
      HandlingIsTwoSteps(c, s, p, v);
      var s2 := DtnRuns.Next(c, DtnRuns.Next(c, s, decide), DtnRuns.Write(p));
      var rest := PassIsARun(c, s2, p, v);
      DtnRuns.ConsRun(c, DtnRuns.Next(c, s, decide), DtnRuns.Write(p), rest);
      DtnRuns.ConsRun(c, s, decide, [DtnRuns.Write(p)] + rest);
      steps := [decide] + ([DtnRuns.Write(p)] + rest);
      PassDoneStep(s, s2, p, v);
    }
  }

  lemma PassDoneStep(s: DtnRuns.State, s2: DtnRuns.State, p: DtnRuns.PassId, v: Situation)
    requires p in s.passes && s.passes[p].Working? && s.passes[p].todo != []
    requires var w, it := s.passes[p], s.passes[p].todo[0];
             s2 == s.(queue := HandledItem(s.queue, it, v), passes := s.passes[p := DtnRuns.Working(w.todo[1..], w.online)],
                      log := s.log + EventsOf(p, s.queue, it, v),
                      inbox := s.inbox + (if LocalPayload(it, v) != [] then [it.id] else []))
    ensures var w := s.passes[p];
            PassDone(s2, p, w.todo[1..], w.online, v) == PassDone(s, p, w.todo, w.online, v)
  {
    var w := s.passes[p];
    assert s2.passes[p := DtnRuns.Working([], w.online)] == s.passes[p := DtnRuns.Working([], w.online)];
    assert s2.log + PassEvents(p, s2.queue, w.todo[1..], v) == s.log + PassEvents(p, s.queue, w.todo, v);
    assert s2.inbox + LocalIds(w.todo[1..], v) == s.inbox + LocalIds(w.todo, v);
  }

  /** The steps before the first bundle: sweep, list, read who is online. */
  lemma PassStarts(c: DtnRuns.Config, s: DtnRuns.State, p: DtnRuns.PassId, now: int, gone: seq<BundleId>,
                   items: seq<Item>, online: set<NodeId>) returns (steps: seq<DtnRuns.Step>)
    requires DtnRuns.Enabled(s, DtnRuns.Begin(p, now, gone)) && ListsLive(items, Live(s.queue, now), now)
    ensures DtnRuns.ValidRun(c, s, steps)
    ensures var s' := DtnRuns.Run(c, s, steps);
            && s'.queue == Live(s.queue, now) && s'.inbox == s.inbox
            && s'.passes == s.passes[p := DtnRuns.Working(items, online)]
  {
    var begin, list, read := DtnRuns.Begin(p, now, gone), DtnRuns.List(p, now, items), DtnRuns.ReadOnline(p, online);
    var s1 := DtnRuns.Next(c, s, begin);
    var s2 := DtnRuns.Next(c, s1, list);
    DtnRuns.ConsRun(c, s2, read, []);
    DtnRuns.ConsRun(c, s1, list, [read] + []);
    DtnRuns.ConsRun(c, s, begin, [list] + ([read] + []));
    steps := [begin] + ([list] + ([read] + []));
  }

  lemma PassEnds(c: DtnRuns.Config, s: DtnRuns.State, p: DtnRuns.PassId, v: Situation) returns (steps: seq<DtnRuns.Step>)
    requires c == DtnRuns.Config(v.self, true) && p in s.passes && s.passes[p].Working?
    requires forall id :: id in s.passes[p].online <==> IsOnline(v.nodes, id)
    ensures DtnRuns.ValidRun(c, s, steps)
    ensures var s' := DtnRuns.Run(c, s, steps);
            && s'.queue == HandledItems(s.queue, s.passes[p].todo, v) && s'.inbox == s.inbox + LocalIds(s.passes[p].todo, v)
            && s'.passes == s.passes - {p}
  {
    var work := PassIsARun(c, s, p, v);
    DtnRuns.RunSnoc(c, s, work, DtnRuns.End(p));
    steps := work + [DtnRuns.End(p)];
  }

  /** The whole of processOnce is such a run too. What is left of the queue is what the engine's
      ProcessOnce leaves. */
  lemma ProcessOnceIsARun(c: DtnRuns.Config, s: DtnRuns.State, p: DtnRuns.PassId, now: int, gone: seq<BundleId>,
                          items: seq<Item>, online: set<NodeId>, v: Situation) returns (steps: seq<DtnRuns.Step>)
    requires c == DtnRuns.Config(v.self, true) && DtnRuns.Enabled(s, DtnRuns.Begin(p, now, gone))
    requires ListsLive(items, Live(s.queue, now), now) && forall id :: id in online <==> IsOnline(v.nodes, id)
    ensures DtnRuns.ValidRun(c, s, steps)
    ensures var s' := DtnRuns.Run(c, s, steps);
            && s'.queue == Handled(Live(s.queue, now), Live(s.queue, now).Keys, v)
            && s'.inbox == s.inbox + LocalIds(items, v) && s'.passes == s.passes
  {
    var start := PassStarts(c, s, p, now, gone, items, online);
    var rest := PassEnds(c, DtnRuns.Run(c, s, start), p, v);
    DtnRuns.RunConcat(c, s, start, rest);
    steps := start + rest;
    AllHandled(Live(s.queue, now), now, items, v);
  }

  lemma AllHandled(q: Queue, now: int, items: seq<Item>, v: Situation)
    requires ListsLive(items, q, now) && Live(q, now) == q
    ensures HandledItems(q, items, v) == Handled(q, q.Keys, v)
  {
    HandledItemsIsHandled(q, now, items, |items|, v);
    ListedIds(q, now, items);
    assert items[..|items|] == items;
  }

  // ----- Local delivery -----

  /** The self-addressed payloads of a list, in order. */
  function PayloadsFor(items: seq<Item>, self: NodeId): seq<seq<int>> {
    if items == [] then []
    else PayloadsFor(items[..|items| - 1], self) +
         (if items[|items| - 1].bundle.dst == self then [items[|items| - 1].bundle.payload] else [])
  }

  /** A pass delivers all self-addressed payloads it lists, or none: all exactly when this hub counts as
      online, has a route to itself, and the deliverer takes them. */
  lemma {:induction false} LocalDeliveryExactly(items: seq<Item>, v: Situation)
    ensures LocalPayloads(items, v) == if Leaves(v, v.self) then PayloadsFor(items, v.self) else []
  {
    if items != [] {
      LocalDeliveryExactly(items[..|items| - 1], v);
    }
  }

  class Engine {
    const self: NodeId
    const store: Store
    const registry: Registry
    const deliverer: Server
    const ttl: int
    var lastDepth: int

    constructor (self: NodeId, store: Store, registry: Registry, deliverer: Server, ttl: int)
      ensures this.self == self && this.store == store && this.registry == registry && this.deliverer == deliverer
      ensures this.ttl == (if ttl <= 0 then 24 * 3600 * 1000 else ttl) && lastDepth == -1
    {
      this.self, this.store, this.registry, this.deliverer := self, store, registry, deliverer;
      this.ttl := if ttl <= 0 then 24 * 3600 * 1000 else ttl;
      lastDepth := -1;
    }

    method Enqueue(id: BundleId, src: NodeId, dst: NodeId, payload: seq<int>, now: int) returns (ok: bool)
      modifies this, store
      ensures ok <==> id !in old(store.queue)
      ensures store.queue == if ok then old(store.queue)[id := Bundle(src, dst, payload, now + ttl, 0)] else old(store.queue)
      ensures lastDepth == if ok then |Live(store.queue, now)| else old(lastDepth)
    {
      ok := store.Enqueue(id, src, dst, payload, now, ttl);
      if ok {
        var _ := PublishDepth(now);
      }
    }

    /** The notifier hears of the depth exactly when it differs from the last one published. */
    method PublishDepth(now: int) returns (notified: bool)
      modifies this
      ensures lastDepth == |Live(store.queue, now)|
      ensures notified <==> old(lastDepth) != lastDepth
    {
      var depth := store.Depth(now);
      notified := depth != lastDepth;
      lastDepth := depth;
    }

    method OnlineDestinations() returns (online: set<NodeId>)
      ensures forall id :: id in online <==> IsOnline(registry.nodes, id)
    {
      online := {};
      var rest := registry.nodes.Keys;
      while rest != {}
        invariant rest <= registry.nodes.Keys
        invariant forall id :: id in online <==> id in registry.nodes.Keys - rest && IsOnline(registry.nodes, id)
        decreases rest
      {
        var id :| id in rest;
        if registry.nodes[id].status == Online {
          online := online + {id};
        }
        rest := rest - {id};
      }
    }

    function View(): Situation
      reads this, registry, deliverer
    {
      Situation(registry.nodes, registry.routes, self, deliverer.self == self)
    }

    /** The body of deliverPending's loop. */
    method HandleBundle(b: Item, online: set<NodeId>)
      requires forall id :: id in online <==> IsOnline(registry.nodes, id)
      modifies store, deliverer`inbox
      ensures store.queue == HandledItem(old(store.queue), b, View())
      ensures deliverer.InboxOf(self) == old(deliverer.InboxOf(self)) + LocalPayload(b, View())
    {
      if b.bundle.dst !in online {
        store.IncrementRetry(b.id);
        return;
      }
      var route := registry.GetRoute(b.bundle.dst);
      if route.None? {
        store.IncrementRetry(b.id);
        return;
      }
      if b.bundle.dst == self {
        var delivered := deliverer.DeliverLocal(b.bundle.src, b.bundle.dst, b.bundle.payload);
        if !delivered {
          store.IncrementRetry(b.id);
          return;
        }
      }
      store.Delete(b.id);
    }

    /** deliverPending's loop. */
    method HandleBundles(bundles: seq<Item>, online: set<NodeId>)
      requires forall id :: id in online <==> IsOnline(registry.nodes, id)
      modifies store, deliverer`inbox
      ensures store.queue == HandledItems(old(store.queue), bundles, View())
      ensures deliverer.InboxOf(self) == old(deliverer.InboxOf(self)) + LocalPayloads(bundles, View())
    {
      ghost var q, v := store.queue, View();
      for k := 0 to |bundles|
        invariant store.queue == HandledItems(q, bundles[..k], v)
        invariant deliverer.InboxOf(self) == old(deliverer.InboxOf(self)) + LocalPayloads(bundles[..k], v)
      {
        assert bundles[..k + 1] == bundles[..k] + [bundles[k]];
        HandledItemsSnoc(q, bundles[..k], bundles[k], v);
        HandleBundle(bundles[k], online);
      }
      assert bundles[..|bundles|] == bundles;
    }

    /** Every live bundle is handled once: removed if its destination is online and routed, given one
        more retry if not; local payloads reach the inbox soonest deadline first. */
    method DeliverPending(now: int) returns (bundles: seq<Item>)
      modifies store, deliverer`inbox
      ensures ListsLive(bundles, old(store.queue), now)
      ensures store.queue == Handled(old(store.queue), Live(old(store.queue), now).Keys, View())
      ensures deliverer.InboxOf(self) == old(deliverer.InboxOf(self)) + LocalPayloads(bundles, View())
    {
      bundles := store.List(now);
      var online := OnlineDestinations();
      ListedIds(store.queue, now, bundles);
      HandledItemsIsHandled(store.queue, now, bundles, |bundles|, View());
      assert bundles[..|bundles|] == bundles;
      HandleBundles(bundles, online);
    }

    method ProcessOnce(now: int) returns (notified: bool, ghost bundles: seq<Item>)
      modifies this, store, deliverer`inbox
      ensures ListsLive(bundles, old(store.queue), now)
      ensures deliverer.InboxOf(self) == old(deliverer.InboxOf(self)) + LocalPayloads(bundles, View())
      ensures store.queue == Handled(Live(old(store.queue), now), Live(old(store.queue), now).Keys, View())
      ensures forall id :: id in store.queue ==>
                && id in old(store.queue) && old(store.queue)[id].expires > now
                && store.queue[id].retries == old(store.queue)[id].retries + 1
                && !Leaves(View(), store.queue[id].dst)
      ensures forall id :: id in store.queue <==>
                && id in old(store.queue) && old(store.queue)[id].expires > now
                && var dst := old(store.queue)[id].dst;
                   !(dst in registry.nodes && registry.nodes[dst].status == Online && dst in registry.routes &&
                     (dst == self ==> deliverer.self == self))
      ensures lastDepth == |Live(store.queue, now)| && (notified <==> old(lastDepth) != lastDepth)
    {
      var _ := store.ExpireBefore(now);
      assert Live(store.queue, now) == store.queue;
      var handled := DeliverPending(now);
      bundles := handled;
      notified := PublishDepth(now);
    }
  }
}
