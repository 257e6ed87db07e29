/** The store-and-forward queue as one table (core/dtn/store.go). */
module DtnQueue {
  import opened Mesh

  /** A 16-byte bundle id read as a number. */
  type BundleId = nat

  datatype Bundle = Bundle(src: NodeId, dst: NodeId, payload: seq<int>, expires: int, retries: nat)

  type Queue = map<BundleId, Bundle>

  datatype Item = Item(id: BundleId, bundle: Bundle)

  function Live(q: Queue, now: int): Queue {
    map id | id in q && q[id].expires > now :: q[id]
  }

  function Retried(q: Queue, id: BundleId): Queue {
    if id in q then q[id := q[id].(retries := q[id].retries + 1)] else q
  }

  ghost predicate ByExpiry(items: seq<Item>) {
    forall i, j :: 0 <= i < j < |items| ==> items[i].bundle.expires <= items[j].bundle.expires
  }

  ghost predicate DistinctIds(items: seq<Item>) {
    forall i, j :: 0 <= i < j < |items| ==> items[i].id != items[j].id
  }

  /** The items are exactly the live bundles, each once, soonest deadline first. */
  ghost predicate ListsLive(items: seq<Item>, q: Queue, now: int) {
    && (forall it :: it in items <==> it.id in Live(q, now) && q[it.id] == it.bundle)
    && DistinctIds(items)
    && ByExpiry(items)
  }

  class Store {
    var queue: Queue

    constructor ()
      ensures queue == map[]
    {
      queue := map[];
    }

    /** The id is drawn at random; a collision with a queued bundle is refused. */
    method Enqueue(id: BundleId, src: NodeId, dst: NodeId, payload: seq<int>, now: int, ttl: int) returns (ok: bool)
      modifies this
      ensures ok <==> id !in old(queue)
      ensures queue == if ok then old(queue)[id := Bundle(src, dst, payload, now + ttl, 0)] else old(queue)
    {
      if id in queue {
        return false;
      }
      queue := queue[id := Bundle(src, dst, payload, now + ttl, 0)];
      return true;
    }

    method List(now: int) returns (items: seq<Item>)
      ensures ListsLive(items, queue, now)
    {
      items := [];
      var rest := Live(queue, now).Keys;
      while rest != {}
        invariant rest <= Live(queue, now).Keys
        invariant forall it :: it in items <==> it.id in Live(queue, now).Keys - rest && queue[it.id] == it.bundle
        invariant DistinctIds(items)
        invariant ByExpiry(items)
        decreases rest
      {
        var id :| id in rest;
        InsertKeepsMembers(items, Item(id, queue[id]));
        InsertKeepsOrder(items, Item(id, queue[id]));
        InsertKeepsDistinct(items, Item(id, queue[id]));
        items := InsertByExpiry(items, Item(id, queue[id]));
        rest := rest - {id};
      }
    }

    method Delete(id: BundleId)
      modifies this
      ensures queue == old(queue) - {id}
    {
      queue := queue - {id};
    }

    method ExpireBefore(now: int) returns (removed: nat)
      modifies this
      ensures queue == Live(old(queue), now)
      ensures removed == |old(queue)| - |queue|
    {
      var before := queue;
      queue := Live(queue, now);
      assert before.Keys == queue.Keys + (before.Keys - queue.Keys);
      removed := |before.Keys| - |queue.Keys|;
    }

    method Depth(now: int) returns (depth: nat)
      ensures depth == |Live(queue, now)|
    {
      depth := |Live(queue, now)|;
    }

    method IncrementRetry(id: BundleId)
      modifies this
      ensures queue == Retried(old(queue), id)
    {
      if id in queue {
        queue := queue[id := queue[id].(retries := queue[id].retries + 1)];
      }
    }
  }

  /** ORDER BY expires_at, one row at a time. */
  function InsertByExpiry(items: seq<Item>, it: Item): seq<Item> {
    if items == [] || it.bundle.expires <= items[0].bundle.expires then [it] + items
    else [items[0]] + InsertByExpiry(items[1..], it)
  }

  lemma {:induction false} InsertKeepsMembers(items: seq<Item>, it: Item)
    ensures forall x :: x in InsertByExpiry(items, it) <==> x in items || x == it
  {
    if !(items == [] || it.bundle.expires <= items[0].bundle.expires) {
      InsertKeepsMembers(items[1..], it);
    }
  }

  lemma {:induction false} InsertKeepsOrder(items: seq<Item>, it: Item)
    requires ByExpiry(items)
    ensures ByExpiry(InsertByExpiry(items, it))
  {
    if !(items == [] || it.bundle.expires <= items[0].bundle.expires) {
      var rest := InsertByExpiry(items[1..], it);
      InsertKeepsOrder(items[1..], it);
      InsertKeepsMembers(items[1..], it);
      forall k | 0 <= k < |rest| ensures items[0].bundle.expires <= rest[k].bundle.expires {
        assert rest[k] in rest;
      }
    }
  }

  lemma {:induction false} InsertKeepsDistinct(items: seq<Item>, it: Item)
    requires DistinctIds(items) && forall x :: x in items ==> x.id != it.id
    ensures DistinctIds(InsertByExpiry(items, it))
  {
    if !(items == [] || it.bundle.expires <= items[0].bundle.expires) {
      var rest := InsertByExpiry(items[1..], it);
      InsertKeepsDistinct(items[1..], it);
      InsertKeepsMembers(items[1..], it);
      forall k | 0 <= k < |rest| ensures items[0].id != rest[k].id {
        assert rest[k] in rest;
      }
    }
  }
}
