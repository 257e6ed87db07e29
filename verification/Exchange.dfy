/** Two hubs that hear each other's gossip end up with the same tables. */
module Exchange {
  import opened Mesh
  import opened Lww
  import opened Registry
  import opened BanList
  import opened AppPresence
  import opened Gossip

  /** A relay row that survives the trip: apply skips an empty ip and port 0, and the port travels
      in 32 bits. */
  predicate RelayRowOk(r: RelayRow) {
    r.ip != "" && 0 < r.port < U32
  }

  /** Every row is one that a peer would store as it is. */
  ghost predicate TablesOk(t: HubTables) {
    && (forall id :: id in t.relays ==> RelayRowOk(t.relays[id]))
    && (forall k :: k in t.apps ==> k.1 != "")
    && BansWf(t.bans)
  }

  /** Key plus timestamp fix content across the two hubs. */
  ghost predicate AgreeOn(a: HubTables, b: HubTables) {
    && Agree(Endpoints(a.relays), Endpoints(b.relays))
    && Agree(a.apps, b.apps)
    && Agree(a.bans.proposals, b.bans.proposals)
    && Agree(a.bans.verdicts, b.bans.verdicts)
  }

  /** Same node ids with the same last_seen, same relay endpoints, proposals and verdicts. */
  ghost predicate Replicated(a: HubTables, b: HubTables) {
    && LastSeen(a.nodes) == LastSeen(b.nodes)
    && Endpoints(a.relays) == Endpoints(b.relays)
    && a.bans == b.bans
  }

  lemma NodeStampsList(recs: seq<NodeRecord>, t: NodeTable)
    requires forall r :: r in recs <==> r.id in t && r == EncodeNode(r.id, t[r.id])
    ensures Lists(NodeStamps(recs), LastSeen(t))
  {
    var stamps := NodeStamps(recs);
    forall s | s in stamps ensures s.key in LastSeen(t) && LastSeen(t)[s.key] == s.row {
      var i :| 0 <= i < |recs| && stamps[i] == s;
      assert recs[i] in recs;
    }
    forall s: Record<NodeId, ()> | s.key in LastSeen(t) && LastSeen(t)[s.key] == s.row ensures s in stamps {
      assert EncodeNode(s.key, t[s.key]) in recs;
      var i :| 0 <= i < |recs| && recs[i] == EncodeNode(s.key, t[s.key]);
      assert stamps[i] == s;
    }
  }

  lemma RelayStampsList(recs: seq<RelayRecord>, t: RelayTable)
    requires forall r :: r in recs <==> r.id in t && r == EncodeRelay(r.id, t[r.id])
    requires forall id :: id in t ==> RelayRowOk(t[id])
    ensures Lists(RelayStamps(recs), Endpoints(t)) && forall r :: r in recs ==> RelayOk(r)
  {
    var stamps := RelayStamps(recs);
    forall s | s in stamps ensures s.key in Endpoints(t) && Endpoints(t)[s.key] == s.row {
      var i :| 0 <= i < |recs| && stamps[i] == s;
      assert recs[i] in recs;
    }
    forall s: Record<NodeId, (string, int)> | s.key in Endpoints(t) && Endpoints(t)[s.key] == s.row ensures s in stamps {
      assert EncodeRelay(s.key, t[s.key]) in recs;
      var i :| 0 <= i < |recs| && recs[i] == EncodeRelay(s.key, t[s.key]);
      assert stamps[i] == s;
    }
  }

  lemma ApplyBansIsJoin(b: Bans, s: Bans, proposals: seq<Record<BanId, Proposal>>,
                        verdicts: seq<Record<(BanId, NodeId), bool>>)
    requires BansWf(b) && BansWf(s) && Agree(b.proposals, s.proposals) && Agree(b.verdicts, s.verdicts)
    requires Lists(proposals, s.proposals) && Lists(verdicts, s.verdicts)
    ensures ApplyBans(b, proposals, verdicts) == Bans(Join(b.proposals, s.proposals), Join(b.verdicts, s.verdicts))
  {
    ApplyProposalsIsLww(b.proposals, proposals);
    MergeTable(b.proposals, proposals, s.proposals, true);
    var known := Join(b.proposals, s.proposals);
    ApplyVerdictsIsLww(b.(proposals := known), verdicts);
    FilterAll(verdicts, IsKnown(known));
    MergeTable(b.verdicts, verdicts, s.verdicts, false);
  }

  /** Applying a hub's message joins its tables into one's own, per key the newest row: all of it
      except the presence rows the sender's bans hide. */
  lemma ApplyIsJoin(t: HubTables, s: HubTables, sender: NodeId, m: Message)
    requires TablesOk(t) && TablesOk(s) && AgreeOn(t, s) && Describes(m, s, sender)
    ensures LastSeen(Apply(t, m).nodes) == Join(LastSeen(t.nodes), LastSeen(s.nodes))
    ensures Endpoints(Apply(t, m).relays) == Join(Endpoints(t.relays), Endpoints(s.relays))
    ensures Apply(t, m).apps == Join(t.apps, Visible(s, sender))
    ensures Apply(t, m).bans == Bans(Join(t.bans.proposals, s.bans.proposals), Join(t.bans.verdicts, s.bans.verdicts))
  {
    ApplyNodesIsLww(t.nodes, m.nodes);
    NodeStampsList(m.nodes, s.nodes);
    MergeTable(LastSeen(t.nodes), NodeStamps(m.nodes), LastSeen(s.nodes), false);
    RelayStampsList(m.relays, s.relays);
    ApplyRelaysIsLww(t.relays, m.relays);
    FilterAll(m.relays, RelayOk);
    MergeTable(Endpoints(t.relays), RelayStamps(m.relays), Endpoints(s.relays), false);
    ApplyAppsIsLww(t.apps, m.apps);
    FilterAll(m.apps, NamesApp);
    MergeTable(t.apps, m.apps, Visible(s, sender), false);
    ApplyBansIsJoin(t.bans, s.bans, m.proposals, m.verdicts);
  }

  /** The hub's bans hide none of the apps it knows. */
  ghost predicate HidesNothing(t: HubTables, self: NodeId) {
    Visible(t, self) == t.apps
  }

  /** Whatever the hub's bans hide, the other hub has, at least as recent. */
  ghost predicate BansHideNoNews(t: HubTables, self: NodeId, other: HubTables) {
    HidesNoNews(t.apps, Visible(t, self), other.apps)
  }

  /** After two hubs each apply the other's message, built before either changed, they hold the same
      rows: every node with the larger last_seen, and the newest row of relays, proposals and verdicts. */
  lemma ExchangeConverges(a: HubTables, b: HubTables, idA: NodeId, idB: NodeId, fromA: Message, fromB: Message)
    requires TablesOk(a) && TablesOk(b) && AgreeOn(a, b)
    requires Describes(fromA, a, idA) && Describes(fromB, b, idB)
    ensures Replicated(Apply(a, fromB), Apply(b, fromA))
    ensures LastSeen(Apply(a, fromB).nodes) == Join(LastSeen(a.nodes), LastSeen(b.nodes))
  {
    ApplyIsJoin(a, b, idB, fromB);
    ApplyIsJoin(b, a, idA, fromA);
    JoinLaws(LastSeen(a.nodes), LastSeen(b.nodes));
    JoinLaws(Endpoints(a.relays), Endpoints(b.relays));
    JoinLaws(a.bans.proposals, b.bans.proposals);
    JoinLaws(a.bans.verdicts, b.bans.verdicts);
  }

  /** And they hold the same app presence exactly when neither hub's bans hide something that is news to
      the other; in particular when neither enforces a ban on an app it knows. */
  lemma PresenceConvergesExactly(a: HubTables, b: HubTables, idA: NodeId, idB: NodeId, fromA: Message, fromB: Message)
    requires TablesOk(a) && TablesOk(b) && AgreeOn(a, b)
    requires Describes(fromA, a, idA) && Describes(fromB, b, idB)
    ensures Apply(a, fromB).apps == Apply(b, fromA).apps <==> BansHideNoNews(a, idA, b) && BansHideNoNews(b, idB, a)
    ensures HidesNothing(a, idA) && HidesNothing(b, idB) ==> Apply(a, fromB).apps == Apply(b, fromA).apps
  {
    ApplyIsJoin(a, b, idB, fromB);
    ApplyIsJoin(b, a, idA, fromA);
    VisibleIsShown(a, idA);
    VisibleIsShown(b, idB);
    ShownTablesMeetExactly(a.apps, Visible(a, idA), b.apps, Visible(b, idB));
  }

  lemma VisibleIsShown(t: HubTables, self: NodeId)
    ensures Shows(t.apps, Visible(t, self))
  {
  }

  const ONE_APP: PresenceTable := map[(5, "x") := Stamped(1, App("X", "1"))]
  const ONE_BAN := Bans(map[0 := Stamped(1, Proposal("x", "*", "", 1, [1]))], map[(0, 1) := Stamped(1, true)])

  /** It can fail: hub 1 enforces a ban on app x and knows that node 5 runs it, hub 2 knows nothing. After
      the exchange hub 2 has the ban, and still not the presence. */
  lemma BanKeepsPresenceApart(fromA: Message, fromB: Message)
    requires Describes(fromA, HubTables(map[], map[], ONE_APP, ONE_BAN), 1)
    requires Describes(fromB, HubTables(map[], map[], map[], NO_BANS), 2)
    ensures Apply(HubTables(map[], map[], ONE_APP, ONE_BAN), fromB).apps !=
            Apply(HubTables(map[], map[], map[], NO_BANS), fromA).apps
  {
    var a, b := HubTables(map[], map[], ONE_APP, ONE_BAN), HubTables(map[], map[], map[], NO_BANS);
    assert TrimSpace("*") == "*";
    assert BansVersion(a.bans, 1, 0, "x", "1");
    assert (5, "x") in a.apps && (5, "x") !in Visible(a, 1);
    PresenceConvergesExactly(a, b, 1, 2, fromA, fromB);
  }

  lemma JoinKeepsBans(a: Bans, b: Bans)
    requires BansWf(a) && BansWf(b)
    ensures BansWf(Bans(Join(a.proposals, b.proposals), Join(a.verdicts, b.verdicts)))
  {
  }

  /** Relays a hub stores from gossip are themselves fit for gossip. */
  lemma {:induction false} ApplyRelaysKeepsOk(t: RelayTable, recs: seq<RelayRecord>)
    requires forall id :: id in t ==> RelayRowOk(t[id])
    requires forall r :: r in recs ==> r.port < U32
    ensures forall id :: id in ApplyRelays(t, recs) ==> RelayRowOk(ApplyRelays(t, recs)[id])
    decreases |recs|
  {
    if recs != [] {
      assert recs[0].port < U32;
      ApplyRelaysKeepsOk(ApplyRelay(t, recs[0]), recs[1..]);
    }
  }

  lemma ApplyKeepsOk(t: HubTables, s: HubTables, sender: NodeId, m: Message)
    requires TablesOk(t) && TablesOk(s) && AgreeOn(t, s) && Describes(m, s, sender)
    ensures TablesOk(Apply(t, m))
  {
    ApplyIsJoin(t, s, sender, m);
    RelayStampsList(m.relays, s.relays);
    forall r | r in m.relays ensures r.port < U32 {
      assert r == EncodeRelay(r.id, s.relays[r.id]);
    }
    ApplyRelaysKeepsOk(t.relays, m.relays);
    JoinKeepsBans(t.bans, s.bans);
  }

  /** The same when b answers only after applying a's message: a's tables agree with the answer, and
      applying it makes a equal to b. */
  lemma ReplyConverges(a: HubTables, b: HubTables, idA: NodeId, idB: NodeId, fromA: Message, reply: Message)
    requires TablesOk(a) && TablesOk(b) && AgreeOn(a, b)
    requires Describes(fromA, a, idA) && Describes(reply, Apply(b, fromA), idB)
    ensures Replicated(Apply(a, reply), Apply(b, fromA))
    ensures HidesNothing(a, idA) && HidesNothing(Apply(b, fromA), idB) ==> Apply(a, reply).apps == Apply(b, fromA).apps
  {
    var b' := Apply(b, fromA);
    ApplyIsJoin(b, a, idA, fromA);
    ApplyKeepsOk(b, a, idA, fromA);
    HeardAgrees(a, b, idA, fromA);
    ApplyIsJoin(a, b', idB, reply);
    JoinLaws(LastSeen(a.nodes), LastSeen(b.nodes));
    JoinLaws(Endpoints(a.relays), Endpoints(b.relays));
    JoinLaws(a.bans.proposals, b.bans.proposals);
    JoinLaws(a.bans.verdicts, b.bans.verdicts);
    if HidesNothing(a, idA) && HidesNothing(b', idB) {
      JoinLaws(a.apps, b.apps);
    }
  }

  /** A hub that has heard a still agrees with a. */
  lemma HeardAgrees(a: HubTables, b: HubTables, idA: NodeId, fromA: Message)
    requires TablesOk(a) && TablesOk(b) && AgreeOn(a, b) && Describes(fromA, a, idA)
    ensures AgreeOn(a, Apply(b, fromA))
  {
    ApplyIsJoin(b, a, idA, fromA);
    JoinLaws(Endpoints(a.relays), Endpoints(b.relays));
    JoinLaws(a.bans.proposals, b.bans.proposals);
    JoinLaws(a.bans.verdicts, b.bans.verdicts);
  }

  /** While a hub enforces a ban, no message describing it carries presence of a banned version. */
  lemma BannedPresenceStaysHome(t: HubTables, self: NodeId, m: Message, r: Record<(NodeId, string), App>)
    requires Describes(m, t, self) && r in m.apps
    ensures !Enforced(t.bans, self, r.key.1, r.row.body.version)
    ensures r.key in t.apps && t.apps[r.key] == r.row
  {
  }
}
