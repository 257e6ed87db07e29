/** Which node runs which app (core/apppresence/store.go). */
module AppPresence {
  import opened Mesh
  import opened Lww
  import BanList

  datatype App = App(name: string, version: string)

  /** app_presence, keyed by node and app id, stamped with last_reported. */
  type PresenceTable = Table<(NodeId, string), App>

  predicate VersionMatches(version: string, constraint: string) {
    var c := BanList.TrimSpace(constraint);
    c == "" || c == "*" || version == c
  }

  /** What a version constraint asks for, space around it aside: anything, or exactly that version. */
  ghost predicate Meets(version: string, constraint: string) {
    exists core :: BanList.IsCore(core, constraint) && (core == "" || core == "*" || version == core)
  }

  lemma MatchesExactly(version: string, constraint: string)
    ensures VersionMatches(version, constraint) <==> Meets(version, constraint)
  {
    BanList.TrimSpaceIsCore(constraint);
    if Meets(version, constraint) {
      var core :| BanList.IsCore(core, constraint) && (core == "" || core == "*" || version == core);
      BanList.CoreIsTrimSpace(core, constraint);
    }
  }

  /** A constraint and a ban range of the same text cover the same versions exactly unless the text is a prefix
      pattern, which only ban ranges know. */
  lemma ConstraintIsRangeExactly(text: string, core: string, form: BanList.RangeForm)
    requires BanList.IsCore(core, text) && BanList.Reads(core, form)
    ensures (forall version :: VersionMatches(version, text) <==> BanList.VersionInRange(version, text)) <==> !form.Prefixed?
  {
    BanList.CoreIsTrimSpace(core, text);
    if form.Prefixed? {
      var version := form.p;
      BanList.RangeCoversExactly(text, core, form, version);
      assert version == form.p + "";
      assert VersionMatches(version, text) != BanList.VersionInRange(version, text);
    } else {
      forall version ensures VersionMatches(version, text) <==> BanList.VersionInRange(version, text) {
        BanList.RangeCoversExactly(text, core, form, version);
      }
    }
  }

  /** Upsert: refused for an empty app id. */
  function Upserted(t: PresenceTable, node: NodeId, app: string, row: Stamped<App>): Option<PresenceTable> {
    if app == "" then None else Some(t[(node, app) := row])
  }

  function MergedPresence(t: PresenceTable, node: NodeId, app: string, row: Stamped<App>): PresenceTable {
    if (node, app) in t && row.at <= t[(node, app)].at then t
    else match Upserted(t, node, app, row) case Some(t') => t' case None => t
  }

  lemma MergedPresenceIsLww(t: PresenceTable, node: NodeId, app: string, row: Stamped<App>)
    requires app != ""
    ensures MergedPresence(t, node, app, row) == Merge(t, Record((node, app), row), false)
  {
  }

  predicate Runs(t: PresenceTable, node: NodeId, app: string, constraint: string) {
    (node, app) in t && VersionMatches(t[(node, app)].body.version, constraint)
  }

  predicate Wanted(r: Record<(NodeId, string), App>, app: string, constraint: string) {
    r.key.1 == app && VersionMatches(r.row.body.version, constraint)
  }

  class PresenceStore {
    var apps: PresenceTable

    constructor ()
      ensures apps == map[]
    {
      apps := map[];
    }

    method Upsert(node: NodeId, app: string, row: Stamped<App>) returns (ok: bool)
      modifies this
      ensures ok <==> app != ""
      ensures apps == if ok then old(apps)[(node, app) := row] else old(apps)
    {
      if app == "" {
        return false;
      }
      apps := apps[(node, app) := row];
      return true;
    }

    /** Reports a change even where the write is refused; `ok` tells. */
    method MergeGossip(node: NodeId, app: string, row: Stamped<App>) returns (changed: bool, ok: bool)
      modifies this
      ensures !ok <==> changed && app == ""
      ensures apps == MergedPresence(old(apps), node, app, row)
      ensures changed <==> (node, app) !in old(apps) || row.at > old(apps)[(node, app)].at
    {
      if (node, app) in apps && row.at <= apps[(node, app)].at {
        return false, true;
      }
      ok := Upsert(node, app, row);
      return true, ok;
    }

    /** The rows of app_presence, each once, newest first. */
    method List() returns (recs: seq<Record<(NodeId, string), App>>)
      ensures Lists(recs, apps) && NewestFirst(recs) && DistinctKeys(recs)
    {
      recs := [];
      var rest := apps.Keys;
      while rest != {}
        invariant rest <= apps.Keys
        invariant forall r :: r in recs <==> r.key in apps.Keys - rest && apps[r.key] == r.row
        invariant NewestFirst(recs) && DistinctKeys(recs)
        decreases rest
      {
        var k :| k in rest;
        InsertKeeps(recs, Record(k, apps[k]));
        forall r { InsertMember(recs, Record(k, apps[k]), r); }
        recs := InsertNewest(recs, Record(k, apps[k]));
        rest := rest - {k};
      }
    }

    method Get(node: NodeId, app: string) returns (row: Option<Stamped<App>>)
      ensures row == if (node, app) in apps then Some(apps[(node, app)]) else None
    {
      if (node, app) in apps {
        return Some(apps[(node, app)]);
      }
      return None;
    }

    /** Each node running a matching version of the app, once. */
    method DiscoverPeers(app: string, constraint: string) returns (peers: seq<NodeId>)
      ensures forall n :: n in peers <==> Runs(apps, n, app, constraint)
      ensures forall n :: n in peers <==> (n, app) in apps && Meets(apps[(n, app)].body.version, constraint)
      ensures Distinct(peers)
    {
      var recs := List();
      peers := [];
      var seen: set<NodeId> := {};
      for k := 0 to |recs|
        invariant forall n :: n in peers <==> n in seen
        invariant forall n :: n in seen ==> Runs(apps, n, app, constraint)
        invariant forall i :: 0 <= i < k && Wanted(recs[i], app, constraint) ==> recs[i].key.0 in seen
        invariant Distinct(peers)
      {
        var r := recs[k];
        assert r in recs;
        if !Wanted(r, app, constraint) {
          continue;
        }
        if r.key.0 in seen {
          continue;
        }
        seen := seen + {r.key.0};
        peers := peers + [r.key.0];
      }
      forall n | (n, app) in apps
        ensures Runs(apps, n, app, constraint) <==> Meets(apps[(n, app)].body.version, constraint)
      {
        MatchesExactly(apps[(n, app)].body.version, constraint);
      }
      forall n | Runs(apps, n, app, constraint) ensures n in peers {
        assert Record((n, app), apps[(n, app)]) in recs;
      }
    }
  }
}
