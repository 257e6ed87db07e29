/** The online/stale transitions that UpsertSeen and MarkStaleBefore report, over whole runs. */
module StatusHistory {
  import opened Mesh
  import opened Registry

  /** One registry call. A sweep names the order in which the SQL cursor lists the rows. */
  datatype Call =
    | SeenAt(id: NodeId, at: int)
    | SweepBefore(cutoff: int, rows: seq<NodeId>)
    | LocatedAt(id: NodeId, lat: real, lon: real, at: int)

  datatype Report = Report(id: NodeId, online: bool)

  ghost predicate Enabled(nodes: NodeTable, c: Call) {
    c.SweepBefore? ==>
      Distinct(c.rows) && forall id :: id in c.rows <==> id in StaleBefore(nodes, c.cutoff)
  }

  function After(nodes: NodeTable, c: Call): NodeTable {
    match c
    case SeenAt(id, at) => Seen(nodes, id, at)
    case SweepBefore(cutoff, _) => MarkedStale(nodes, cutoff)
    case LocatedAt(id, lat, lon, at) => Located(nodes, id, lat, lon, at)
  }

  function StaleReports(rows: seq<NodeId>): seq<Report> {
    seq(|rows|, i requires 0 <= i < |rows| => Report(rows[i], false))
  }

  function Reports(nodes: NodeTable, c: Call): seq<Report> {
    match c
    case SeenAt(id, _) => if IsOnline(nodes, id) then [] else [Report(id, true)]
    case SweepBefore(_, rows) => StaleReports(rows)
    case LocatedAt(_, _, _, _) => []
  }

  ghost predicate ValidRun(nodes: NodeTable, calls: seq<Call>)
    decreases |calls|
  {
    calls == [] || (Enabled(nodes, calls[0]) && ValidRun(After(nodes, calls[0]), calls[1..]))
  }

  function Run(nodes: NodeTable, calls: seq<Call>): NodeTable
    decreases |calls|
  {
    if calls == [] then nodes else Run(After(nodes, calls[0]), calls[1..])
  }

  function Log(nodes: NodeTable, calls: seq<Call>): seq<Report>
    decreases |calls|
  {
    if calls == [] then [] else Reports(nodes, calls[0]) + Log(After(nodes, calls[0]), calls[1..])
  }

  /** The transitions reported for one node, in order. */
  function Of(log: seq<Report>, id: NodeId): seq<bool> {
    if log == [] then []
    else (if log[0].id == id then [log[0].online] else []) + Of(log[1..], id)
  }

  /** Replaying reports onto a status column. */
  function Replay(status: map<NodeId, NodeStatus>, log: seq<Report>): map<NodeId, NodeStatus>
    decreases |log|
  {
    if log == [] then status
    else Replay(status[log[0].id := if log[0].online then Online else Stale], log[1..])
  }

  function StatusColumn(nodes: NodeTable): map<NodeId, NodeStatus> {
    map id | id in nodes :: nodes[id].status
  }

  /** Strict alternation, the first entry being `first`. */
  ghost predicate Alternates(s: seq<bool>, first: bool) {
    && (s != [] ==> s[0] == first)
    && forall i :: 0 <= i < |s| - 1 ==> s[i + 1] != s[i]
  }

  /** Only "online" and "stale" are ever written when no gossip is merged. */
  ghost predicate Plain(nodes: NodeTable) {
    forall id :: id in nodes ==> nodes[id].status == Online || nodes[id].status == Stale
  }

  lemma {:induction false} OfConcat(a: seq<Report>, b: seq<Report>, id: NodeId)
    ensures Of(a + b, id) == Of(a, id) + Of(b, id)
  {
    if a == [] {
      assert a + b == b;
    } else {
      assert (a + b)[1..] == a[1..] + b;
      OfConcat(a[1..], b, id);
      var first := if a[0].id == id then [a[0].online] else [];
      assert first + (Of(a[1..], id) + Of(b, id)) == (first + Of(a[1..], id)) + Of(b, id);
    }
  }

  lemma {:induction false} ReplayConcat(status: map<NodeId, NodeStatus>, a: seq<Report>, b: seq<Report>)
    ensures Replay(status, a + b) == Replay(Replay(status, a), b)
    decreases |a|
  {
    if a == [] {
      assert a + b == b;
    } else {
      assert (a + b)[1..] == a[1..] + b;
      ReplayConcat(status[a[0].id := if a[0].online then Online else Stale], a[1..], b);
    }
  }

  /** A sweep reports each listed node exactly once. */
  lemma {:induction false} OfStaleReports(rows: seq<NodeId>, id: NodeId)
    requires Distinct(rows)
    ensures Of(StaleReports(rows), id) == if id in rows then [false] else []
  {
    if rows != [] {
      assert StaleReports(rows)[1..] == StaleReports(rows[1..]);
      OfStaleReports(rows[1..], id);
    }
  }

  lemma {:induction false} ReplayStaleReports(status: map<NodeId, NodeStatus>, rows: seq<NodeId>)
    ensures Replay(status, StaleReports(rows)) ==
            map id | id in status.Keys + (set x | x in rows) :: if id in rows then Stale else status[id]
    decreases |rows|
  {
    if rows != [] {
      assert StaleReports(rows)[1..] == StaleReports(rows[1..]);
      ReplayStaleReports(status[rows[0] := Stale], rows[1..]);
      assert forall id :: id in rows <==> id == rows[0] || id in rows[1..];
    }
  }

  /** One call: the reports replay to the new status column. */
  lemma ReplayOneCall(nodes: NodeTable, c: Call)
    requires Enabled(nodes, c)
    ensures Replay(StatusColumn(nodes), Reports(nodes, c)) == StatusColumn(After(nodes, c))
  {
    match c
    case SeenAt(id, at) =>
      var col := StatusColumn(nodes);
      if !IsOnline(nodes, id) {
        var one := [Report(id, true)];
        assert one[1..] == [];
        assert Replay(col[id := Online], []) == col[id := Online];
        assert Replay(col, one) == Replay(col[id := Online], one[1..]);
      }
    case SweepBefore(cutoff, rows) =>
      ReplayStaleReports(StatusColumn(nodes), rows);
    case LocatedAt(id, lat, lon, at) =>
  }

  /** Replaying everything a run reported rebuilds the status column exactly. */
  lemma {:induction false} ReplayRebuildsStatus(nodes: NodeTable, calls: seq<Call>)
    requires ValidRun(nodes, calls)
    ensures Replay(StatusColumn(nodes), Log(nodes, calls)) == StatusColumn(Run(nodes, calls))
    decreases |calls|
  {
    if calls != [] {
      ReplayOneCall(nodes, calls[0]);
      ReplayRebuildsStatus(After(nodes, calls[0]), calls[1..]);
      ReplayConcat(StatusColumn(nodes), Reports(nodes, calls[0]), Log(After(nodes, calls[0]), calls[1..]));
    }
  }

  /** One call reports at most one transition per node, always away from its present state. */
  lemma OneCallOneTransition(nodes: NodeTable, c: Call, id: NodeId)
    requires Enabled(nodes, c) && Plain(nodes)
    ensures Plain(After(nodes, c))
    ensures Of(Reports(nodes, c), id) ==
            if IsOnline(After(nodes, c), id) == IsOnline(nodes, id) then [] else [!IsOnline(nodes, id)]
  {
    match c
    case SeenAt(id', at) =>
      if !IsOnline(nodes, id') {
        assert Reports(nodes, c)[1..] == [];
      }
    case SweepBefore(cutoff, rows) =>
      OfStaleReports(rows, id);
    case LocatedAt(id', lat, lon, at) =>
  }

  /** Over every run, the transitions reported for a node strictly alternate, and the first one
      leaves the state the node started in: from an empty table, "online" comes first. */
  lemma {:induction false} TransitionsAlternate(nodes: NodeTable, calls: seq<Call>, id: NodeId)
    requires ValidRun(nodes, calls) && Plain(nodes)
    ensures Alternates(Of(Log(nodes, calls), id), !IsOnline(nodes, id))
    ensures IsOnline(Run(nodes, calls), id) ==
            (var t := Of(Log(nodes, calls), id); if t == [] then IsOnline(nodes, id) else t[|t| - 1])
    decreases |calls|
  {
    if calls != [] {
      var next := After(nodes, calls[0]);
      OneCallOneTransition(nodes, calls[0], id);
      TransitionsAlternate(next, calls[1..], id);
      OfConcat(Reports(nodes, calls[0]), Log(next, calls[1..]), id);
    }
  }

  // ----- The columns, read off the calls alone -----

  /** When the node was first heard. */
  function FirstHeard(calls: seq<Call>, id: NodeId): Option<int>
    decreases |calls|
  {
    if calls == [] then None
    else if calls[0].SeenAt? && calls[0].id == id then Some(calls[0].at)
    else FirstHeard(calls[1..], id)
  }

  /** The calls since the node was last heard, that last one included; all of them if it never was. */
  function SinceHeard(calls: seq<Call>, id: NodeId): seq<Call>
    decreases |calls|
  {
    if calls == [] then []
    else
      var last := calls[|calls| - 1];
      if last.SeenAt? && last.id == id then [last]
      else SinceHeard(calls[..|calls| - 1], id) + [last]
  }

  /** The newest sign of life in `calls`: hearing the node sets it, a position report can only raise it. */
  function Freshest(calls: seq<Call>, id: NodeId): int
    requires calls != [] && calls[0].SeenAt?
    decreases |calls|
  {
    var last := calls[|calls| - 1];
    if |calls| == 1 then last.at
    else
      var before := Freshest(calls[..|calls| - 1], id);
      if last.LocatedAt? && last.id == id && last.at > before then last.at else before
  }

  /** Since the node was last heard, no sweep has found it too old. */
  ghost predicate StillFresh(calls: seq<Call>, id: NodeId)
    requires calls != [] && calls[0].SeenAt?
  {
    forall k :: 1 <= k < |calls| && calls[k].SweepBefore? ==> Freshest(calls[..k], id) >= calls[k].cutoff
  }

  /** What a row says, in terms of what was called. */
  ghost predicate Tells(nodes: NodeTable, calls: seq<Call>, id: NodeId) {
    && (id in nodes <==> FirstHeard(calls, id).Some?)
    && (id in nodes ==>
          var since := SinceHeard(calls, id);
          && since != [] && since[0].SeenAt? && since[0].id == id
          && nodes[id].firstSeen == FirstHeard(calls, id).value
          && nodes[id].lastSeen == Freshest(since, id)
          && (nodes[id].status == Online <==> StillFresh(since, id)))
  }

  lemma {:induction false} FirstHeardSnoc(calls: seq<Call>, c: Call, id: NodeId)
    ensures FirstHeard(calls + [c], id) ==
            if FirstHeard(calls, id).Some? then FirstHeard(calls, id)
            else if c.SeenAt? && c.id == id then Some(c.at) else None
    decreases |calls|
  {
    if calls == [] {
      assert [c][1..] == [];
      assert FirstHeard([], id) == None;
      assert calls + [c] == [c];
    } else {
      assert (calls + [c])[1..] == calls[1..] + [c];
      FirstHeardSnoc(calls[1..], c, id);
    }
  }

  lemma SinceHeardSnoc(calls: seq<Call>, c: Call, id: NodeId)
    ensures SinceHeard(calls + [c], id) ==
            if c.SeenAt? && c.id == id then [c] else SinceHeard(calls, id) + [c]
  {
    assert (calls + [c])[..|calls|] == calls;
  }

  lemma StillFreshSnoc(since: seq<Call>, c: Call, id: NodeId)
    requires since != [] && since[0].SeenAt?
    ensures StillFresh(since + [c], id) <==>
            StillFresh(since, id) && (c.SweepBefore? ==> Freshest(since, id) >= c.cutoff)
  {
    var longer := since + [c];
    assert longer[..|since|] == since;
    forall k | 1 <= k < |since| ensures longer[..k] == since[..k] && longer[k] == since[k] {
    }
    assert longer[|since|] == c;
  }

  lemma HeardTells(nodes: NodeTable, calls: seq<Call>, id: NodeId, at: int)
    requires Tells(nodes, calls, id)
    ensures Tells(Seen(nodes, id, at), calls + [SeenAt(id, at)], id)
  {
    var c := SeenAt(id, at);
    FirstHeardSnoc(calls, c, id);
    SinceHeardSnoc(calls, c, id);
    assert Freshest([c], id) == at && StillFresh([c], id);
  }

  /** Any other call: the row changes as the calls since the node was heard say. */
  lemma OtherTells(nodes: NodeTable, calls: seq<Call>, c: Call, id: NodeId, nodes': NodeTable)
    requires Tells(nodes, calls, id) && !(c.SeenAt? && c.id == id) && (id in nodes' <==> id in nodes)
    requires id in nodes ==>
             && nodes'[id].firstSeen == nodes[id].firstSeen
             && nodes'[id].lastSeen == (if c.LocatedAt? && c.id == id && c.at > nodes[id].lastSeen then c.at else nodes[id].lastSeen)
             && (nodes'[id].status == Online <==>
                 nodes[id].status == Online && (c.SweepBefore? ==> nodes[id].lastSeen >= c.cutoff))
    ensures Tells(nodes', calls + [c], id)
  {
    FirstHeardSnoc(calls, c, id);
    SinceHeardSnoc(calls, c, id);
    if id in nodes {
      var since := SinceHeard(calls, id);
      assert (since + [c])[..|since|] == since;
      assert Freshest(since + [c], id) == nodes'[id].lastSeen;
      StillFreshSnoc(since, c, id);
    }
  }

  lemma TellsOn(nodes: NodeTable, calls: seq<Call>, c: Call, id: NodeId)
    requires Tells(nodes, calls, id)
    ensures Tells(After(nodes, c), calls + [c], id)
  {
    if c.SeenAt? && c.id == id {
      HeardTells(nodes, calls, id, c.at);
    } else {
      OtherTells(nodes, calls, c, id, After(nodes, c));
    }
  }

  lemma {:induction false} RunTells(nodes: NodeTable, before: seq<Call>, calls: seq<Call>, id: NodeId)
    requires Tells(nodes, before, id) && ValidRun(nodes, calls)
    ensures Tells(Run(nodes, calls), before + calls, id)
    decreases |calls|
  {
    if calls == [] {
      assert before + calls == before;
    } else {
      TellsOn(nodes, before, calls[0], id);
      RunTells(After(nodes, calls[0]), before + [calls[0]], calls[1..], id);
      assert before + [calls[0]] + calls[1..] == before + calls;
    }
  }

  /** From an empty table, whatever was called: a node has a row once it was heard; first_seen is when that
      was, last_seen the newest sign of life since it was last heard, and it is online exactly if no sweep
      since then had a later cutoff. */
  lemma RowsTellTheirHistory(calls: seq<Call>, id: NodeId)
    requires ValidRun(map[], calls)
    ensures Tells(Run(map[], calls), calls, id)
  {
    RunTells(map[], [], calls, id);
    assert [] + calls == calls;
  }

  /** With no position reports in between, the newest sign of life is the last time it was heard. */
  lemma {:induction false} FreshestIsLastHeard(since: seq<Call>, id: NodeId)
    requires since != [] && since[0].SeenAt? && forall c :: c in since ==> !c.LocatedAt?
    ensures Freshest(since, id) == since[0].at
    decreases |since|
  {
    if |since| > 1 {
      FreshestIsLastHeard(since[..|since| - 1], id);
      assert since[|since| - 1] in since;
    }
  }

  /** Without position reports last_seen is the time the node was last heard, and the next sweep reports
      exactly the nodes that are still online and were last heard before its cutoff. */
  lemma SweepReportsTheSilent(calls: seq<Call>, cutoff: int, rows: seq<NodeId>, id: NodeId)
    requires ValidRun(map[], calls) && Enabled(Run(map[], calls), SweepBefore(cutoff, rows))
    requires forall c :: c in calls ==> !c.LocatedAt?
    ensures FirstHeard(calls, id).Some? ==>
            var since := SinceHeard(calls, id);
            && since != [] && id in Run(map[], calls) && since[0] == SeenAt(id, Run(map[], calls)[id].lastSeen)
            && (Report(id, false) in Reports(Run(map[], calls), SweepBefore(cutoff, rows)) <==>
                since[0].at < cutoff && forall k :: 1 <= k < |since| && since[k].SweepBefore? ==> since[k].cutoff <= since[0].at)
    ensures FirstHeard(calls, id).None? ==> Report(id, false) !in Reports(Run(map[], calls), SweepBefore(cutoff, rows))
  {
    var nodes := Run(map[], calls);
    RowsTellTheirHistory(calls, id);
    assert Report(id, false) in StaleReports(rows) <==> id in rows by {
      if id in rows {
        var k :| 0 <= k < |rows| && rows[k] == id;
        assert StaleReports(rows)[k] == Report(id, false);
      }
    }
    if id in nodes {
      var since := SinceHeard(calls, id);
      SinceHeardAre(calls, id);
      FreshestIsLastHeard(since, id);
      forall k | 1 <= k < |since| ensures Freshest(since[..k], id) == since[0].at {
        FreshestIsLastHeard(since[..k], id);
      }
    }
  }

  lemma {:induction false} SinceHeardAre(calls: seq<Call>, id: NodeId)
    ensures forall c :: c in SinceHeard(calls, id) ==> c in calls
    decreases |calls|
  {
    if calls != [] {
      SinceHeardAre(calls[..|calls| - 1], id);
    }
  }
}
