/** What a gossip message says about a hub and what applying one does
    (hub/internal/syncengine/syncengine.go). */
module Gossip {
  import opened Mesh
  import opened Lww
  import opened Registry
  import opened BanList
  import opened AppPresence

  /** The tables of one hub that gossip reads and writes. */
  datatype HubTables = HubTables(nodes: NodeTable, relays: RelayTable, apps: PresenceTable, bans: Bans)

  /** wire.NodeRecord: missing coordinates travel as zero. */
  datatype NodeRecord = NodeRecord(id: NodeId, firstSeen: int, lastSeen: int, status: NodeStatus, lat: real, lon: real)

  /** wire.RelayHubRecord: the port travels as a uint32. */
  datatype RelayRecord = RelayRecord(id: NodeId, ip: string, port: nat, lastVerified: int)

  datatype Message = Message(
    from: NodeId,
    nodes: seq<NodeRecord>,
    relays: seq<RelayRecord>,
    apps: seq<Record<(NodeId, string), App>>,
    proposals: seq<Record<BanId, Proposal>>,
    verdicts: seq<Record<(BanId, NodeId), bool>>)

  // ----- Building -----

  function OrZero(x: Option<real>): real {
    if x.Some? then x.value else 0.0
  }

  function EncodeNode(id: NodeId, row: NodeRow): NodeRecord {
    NodeRecord(id, row.firstSeen, row.lastSeen, row.status, OrZero(row.lat), OrZero(row.lon))
  }

  function EncodeRelay(id: NodeId, row: RelayRow): RelayRecord {
    RelayRecord(id, row.ip, row.port % 0x1_0000_0000, row.lastVerified)
  }

  /** Presence rows of apps that the hub does not enforce a ban on. */
  function Visible(t: HubTables, self: NodeId): PresenceTable {
    map k | k in t.apps && !Enforced(t.bans, self, k.1, t.apps[k].body.version) :: t.apps[k]
  }

  /** The message lists the hub's tables, leaving out presence of banned apps; rows come in any order. */
  ghost predicate Describes(m: Message, t: HubTables, self: NodeId) {
    && m.from == self
    && (forall r :: r in m.nodes <==> r.id in t.nodes && r == EncodeNode(r.id, t.nodes[r.id]))
    && (forall r :: r in m.relays <==> r.id in t.relays && r == EncodeRelay(r.id, t.relays[r.id]))
    && Lists(m.apps, Visible(t, self))
    && Lists(m.proposals, t.bans.proposals)
    && Lists(m.verdicts, t.bans.verdicts)
  }

  // ----- Applying -----

  function DecodeNode(r: NodeRecord): NodeRow {
    var located := r.lat != 0.0 || r.lon != 0.0;
    NodeRow(r.firstSeen, r.lastSeen, r.status,
            if located then Some(r.lat) else None, if located then Some(r.lon) else None)
  }

  /** What of a row survives the wire: both times and the status always; the location exactly if there is none or
      if both coordinates are known and not both zero. Half a location arrives with a zero for the other half,
      and a node at 0, 0 arrives with none. */
  lemma NodeTravelsExactly(id: NodeId, row: NodeRow)
    ensures var r := EncodeNode(id, row);
            var got := DecodeNode(r);
            && r.id == id && got.firstSeen == row.firstSeen && got.lastSeen == row.lastSeen && got.status == row.status
            && (row.lat.Some? ==> r.lat == row.lat.value) && (row.lon.Some? ==> r.lon == row.lon.value)
            && (got.lat.Some? <==> got.lon.Some?)
            && (got.lat.Some? ==> got.lat.value == (if row.lat.Some? then row.lat.value else 0.0)
                                  && got.lon.value == if row.lon.Some? then row.lon.value else 0.0)
            && (got == row <==> if row.lat.Some? && row.lon.Some? then row.lat.value != 0.0 || row.lon.value != 0.0
                                else row.lat.None? && row.lon.None?)
  {
  }

  function ApplyNodes(t: NodeTable, recs: seq<NodeRecord>): NodeTable
    decreases |recs|
  {
    if recs == [] then t else ApplyNodes(MergedNode(t, recs[0].id, DecodeNode(recs[0])), recs[1..])
  }

  predicate RelayOk(r: RelayRecord) {
    r.ip != "" && r.port != 0
  }

  function ApplyRelay(t: RelayTable, r: RelayRecord): RelayTable {
    if RelayOk(r) then MergedRelay(t, r.id, r.ip, r.port, r.lastVerified) else t
  }

  function ApplyRelays(t: RelayTable, recs: seq<RelayRecord>): RelayTable
    decreases |recs|
  {
    if recs == [] then t else ApplyRelays(ApplyRelay(t, recs[0]), recs[1..])
  }

  function ApplyApp(t: PresenceTable, r: Record<(NodeId, string), App>): PresenceTable {
    if r.key.1 == "" then t else MergedPresence(t, r.key.0, r.key.1, r.row)
  }

  function ApplyApps(t: PresenceTable, recs: seq<Record<(NodeId, string), App>>): PresenceTable
    decreases |recs|
  {
    if recs == [] then t else ApplyApps(ApplyApp(t, recs[0]), recs[1..])
  }

  function ApplyProposals(t: ProposalTable, recs: seq<Record<BanId, Proposal>>): ProposalTable
    decreases |recs|
  {
    if recs == [] then t else ApplyProposals(MergedProposal(t, recs[0].key, recs[0].row), recs[1..])
  }

  function ApplyVerdicts(b: Bans, recs: seq<Record<(BanId, NodeId), bool>>): VerdictTable
    decreases |recs|
  {
    if recs == [] then b.verdicts
    else ApplyVerdicts(b.(verdicts := MergedVerdict(b, recs[0].key.0, recs[0].key.1, recs[0].row)), recs[1..])
  }

  /** Proposals first, so that the verdicts that come with them find their ban. */
  function ApplyBans(b: Bans, proposals: seq<Record<BanId, Proposal>>,
                     verdicts: seq<Record<(BanId, NodeId), bool>>): Bans
  {
    var known := ApplyProposals(b.proposals, proposals);
    Bans(known, ApplyVerdicts(b.(proposals := known), verdicts))
  }

  function Apply(t: HubTables, m: Message): HubTables {
    HubTables(ApplyNodes(t.nodes, m.nodes), ApplyRelays(t.relays, m.relays), ApplyApps(t.apps, m.apps),
              ApplyBans(t.bans, m.proposals, m.verdicts))
  }

  // ----- Each table is a last-writer-wins table -----

  /** node_registry as far as gossip agrees on it: which nodes, and when last seen. */
  function LastSeen(t: NodeTable): Table<NodeId, ()> {
    map id | id in t :: Stamped(t[id].lastSeen, ())
  }

  function NodeStamps(recs: seq<NodeRecord>): seq<Record<NodeId, ()>> {
    seq(|recs|, i requires 0 <= i < |recs| => Record(recs[i].id, Stamped(recs[i].lastSeen, ())))
  }

  lemma {:induction false} ApplyNodesIsLww(t: NodeTable, recs: seq<NodeRecord>)
    ensures LastSeen(ApplyNodes(t, recs)) == MergeAll(LastSeen(t), NodeStamps(recs), false)
    decreases |recs|
  {
    if recs != [] {
      var t' := MergedNode(t, recs[0].id, DecodeNode(recs[0]));
      assert LastSeen(t') == Merge(LastSeen(t), NodeStamps(recs)[0], false);
      assert NodeStamps(recs)[1..] == NodeStamps(recs[1..]);
      ApplyNodesIsLww(t', recs[1..]);
    }
  }

  /** The first record about a node. */
  function FirstRecord(recs: seq<NodeRecord>, id: NodeId): Option<NodeRecord> {
    if recs == [] then None else if recs[0].id == id then Some(recs[0]) else FirstRecord(recs[1..], id)
  }

  /** Whatever is merged, first_seen of a known node stays, and that of a new one is what the first record said. */
  lemma {:induction false} FirstSeenIsKept(t: NodeTable, recs: seq<NodeRecord>, id: NodeId)
    ensures id in ApplyNodes(t, recs) <==> id in t || FirstRecord(recs, id).Some?
    ensures id in ApplyNodes(t, recs) ==>
            ApplyNodes(t, recs)[id].firstSeen ==
            if id in t then t[id].firstSeen else FirstRecord(recs, id).value.firstSeen
    decreases |recs|
  {
    if recs != [] {
      FirstSeenIsKept(MergedNode(t, recs[0].id, DecodeNode(recs[0])), recs[1..], id);
    }
  }

  /** If all records about a node say the same, it is as if there were one. */
  lemma {:induction false} ApplyUniform(t: NodeTable, recs: seq<NodeRecord>, rec: NodeRecord)
    requires rec in recs && forall r :: r in recs && r.id == rec.id ==> r == rec
    ensures rec.id in ApplyNodes(t, recs)
    ensures ApplyNodes(t, recs)[rec.id] == MergedNode(t, rec.id, DecodeNode(rec))[rec.id]
    decreases |recs|
  {
    var t' := MergedNode(t, recs[0].id, DecodeNode(recs[0]));
    if rec in recs[1..] {
      ApplyUniform(t', recs[1..], rec);
    } else {
      assert recs[0] == rec;
      ApplyNoneFor(t', recs[1..], rec.id);
    }
  }

  lemma {:induction false} ApplyNoneFor(t: NodeTable, recs: seq<NodeRecord>, id: NodeId)
    requires id in t && forall r :: r in recs ==> r.id != id
    ensures id in ApplyNodes(t, recs) && ApplyNodes(t, recs)[id] == t[id]
    decreases |recs|
  {
    if recs != [] {
      assert recs[0] in recs;
      ApplyNoneFor(MergedNode(t, recs[0].id, DecodeNode(recs[0])), recs[1..], id);
    }
  }

  /** What a hub knows of a node after it applies another hub's message: all that travels, if it knew nothing; the
      times, the status and the location of whoever saw it last, if it knew it; and its own first_seen. */
  lemma NodeIsLearned(t: HubTables, s: HubTables, sender: NodeId, m: Message, id: NodeId)
    requires Describes(m, s, sender) && id in s.nodes
    ensures id in Apply(t, m).nodes
    ensures var sent, got := s.nodes[id], Apply(t, m).nodes[id];
            && (id !in t.nodes ==> got == DecodeNode(EncodeNode(id, sent)))
            && (id in t.nodes && sent.lastSeen <= t.nodes[id].lastSeen ==> got == t.nodes[id])
            && (id in t.nodes && sent.lastSeen > t.nodes[id].lastSeen ==>
                  && got.firstSeen == t.nodes[id].firstSeen && got.lastSeen == sent.lastSeen && got.status == sent.status
                  && (sent.lat.Some? && sent.lon.Some? && (sent.lat.value != 0.0 || sent.lon.value != 0.0) ==>
                        got.lat == sent.lat && got.lon == sent.lon)
                  && (sent.lat.None? && sent.lon.None? ==> got.lat == t.nodes[id].lat && got.lon == t.nodes[id].lon))
  {
    var rec := EncodeNode(id, s.nodes[id]);
    assert rec in m.nodes;
    ApplyUniform(t.nodes, m.nodes, rec);
    NodeTravelsExactly(id, s.nodes[id]);
  }

  /** node_registry with the status each node was last reported in. */
  function Statuses(t: NodeTable): Table<NodeId, NodeStatus> {
    map id | id in t :: Stamped(t[id].lastSeen, t[id].status)
  }

  function StatusStamps(recs: seq<NodeRecord>): seq<Record<NodeId, NodeStatus>> {
    seq(|recs|, i requires 0 <= i < |recs| => Record(recs[i].id, Stamped(recs[i].lastSeen, recs[i].status)))
  }

  lemma {:induction false} ApplyStatusesIsLww(t: NodeTable, recs: seq<NodeRecord>)
    ensures Statuses(ApplyNodes(t, recs)) == MergeAll(Statuses(t), StatusStamps(recs), false)
    decreases |recs|
  {
    if recs != [] {
      var t' := MergedNode(t, recs[0].id, DecodeNode(recs[0]));
      assert Statuses(t') == Merge(Statuses(t), StatusStamps(recs)[0], false);
      assert StatusStamps(recs)[1..] == StatusStamps(recs[1..]);
      ApplyStatusesIsLww(t', recs[1..]);
    }
  }

  /** Whether a record leaves a coordinate to the row it replaces. */
  predicate KeepsOld(older: Option<real>, newer: Option<real>, stored: Option<real>) {
    newer.Some? || older.None? || older == stored
  }

  /** Locations do not merge by timestamp alone. Two records about a node, both newer than its row, can be
      swapped exactly if the newer one brings a location, or the older one brings none or the stored one. */
  lemma LocationSwapsExactly(t: NodeTable, id: NodeId, older: NodeRow, newer: NodeRow)
    requires id in t && t[id].lastSeen < older.lastSeen < newer.lastSeen
    ensures MergedNode(MergedNode(t, id, older), id, newer) == MergedNode(MergedNode(t, id, newer), id, older) <==>
            KeepsOld(older.lat, newer.lat, t[id].lat) && KeepsOld(older.lon, newer.lon, t[id].lon)
  {
    var x := MergedNode(MergedNode(t, id, older), id, newer);
    var y := MergedNode(MergedNode(t, id, newer), id, older);
    assert x == y <==> x[id] == y[id];
  }

  /** relay_hubs without the source column: which endpoint, and when verified. */
  function Endpoints(t: RelayTable): Table<NodeId, (string, int)> {
    map id | id in t :: Stamped(t[id].lastVerified, (t[id].ip, t[id].port))
  }

  function RelayStamps(recs: seq<RelayRecord>): seq<Record<NodeId, (string, int)>> {
    seq(|recs|, i requires 0 <= i < |recs| => Record(recs[i].id, Stamped(recs[i].lastVerified, (recs[i].ip, recs[i].port))))
  }

  /** Records without an endpoint are skipped. */
  function KeptRelays(recs: seq<RelayRecord>): seq<RelayRecord> {
    Filter(recs, RelayOk)
  }

  lemma {:induction false} ApplyRelaysIsLww(t: RelayTable, recs: seq<RelayRecord>)
    ensures Endpoints(ApplyRelays(t, recs)) == MergeAll(Endpoints(t), RelayStamps(KeptRelays(recs)), false)
    decreases |recs|
  {
    if recs != [] {
      var t' := ApplyRelay(t, recs[0]);
      var kept := RelayStamps(KeptRelays(recs));
      ApplyRelaysIsLww(t', recs[1..]);
      if RelayOk(recs[0]) {
        assert Endpoints(t') == Merge(Endpoints(t), kept[0], false);
        assert kept[1..] == RelayStamps(KeptRelays(recs[1..]));
      } else {
        assert KeptRelays(recs) == KeptRelays(recs[1..]);
      }
    }
  }

  predicate NamesApp(r: Record<(NodeId, string), App>) {
    r.key.1 != ""
  }

  /** Records that name no app are skipped. */
  function KeptApps(recs: seq<Record<(NodeId, string), App>>): seq<Record<(NodeId, string), App>> {
    Filter(recs, NamesApp)
  }

  lemma {:induction false} ApplyAppsIsLww(t: PresenceTable, recs: seq<Record<(NodeId, string), App>>)
    ensures ApplyApps(t, recs) == MergeAll(t, KeptApps(recs), false)
    decreases |recs|
  {
    if recs != [] {
      ApplyAppsIsLww(ApplyApp(t, recs[0]), recs[1..]);
      if recs[0].key.1 != "" {
        assert KeptApps(recs)[0] == Record((recs[0].key.0, recs[0].key.1), recs[0].row);
        assert KeptApps(recs)[1..] == KeptApps(recs[1..]);
        MergedPresenceIsLww(t, recs[0].key.0, recs[0].key.1, recs[0].row);
      } else {
        assert KeptApps(recs) == KeptApps(recs[1..]);
      }
    }
  }

  lemma {:induction false} ApplyProposalsIsLww(t: ProposalTable, recs: seq<Record<BanId, Proposal>>)
    requires forall r :: r in recs ==> ProposalOk(r.row.body)
    ensures ApplyProposals(t, recs) == MergeAll(t, recs, true)
    decreases |recs|
  {
    if recs != [] {
      MergedProposalIsLww(t, recs[0].key, recs[0].row);
      ApplyProposalsIsLww(MergedProposal(t, recs[0].key, recs[0].row), recs[1..]);
    }
  }

  function IsKnown(known: ProposalTable): Record<(BanId, NodeId), bool> -> bool {
    (r: Record<(BanId, NodeId), bool>) => r.key.0 in known
  }

  /** Verdicts about bans the hub does not know are refused. */
  function KeptVerdicts(known: ProposalTable, recs: seq<Record<(BanId, NodeId), bool>>): seq<Record<(BanId, NodeId), bool>> {
    Filter(recs, IsKnown(known))
  }

  lemma {:induction false} ApplyVerdictsIsLww(b: Bans, recs: seq<Record<(BanId, NodeId), bool>>)
    ensures ApplyVerdicts(b, recs) == MergeAll(b.verdicts, KeptVerdicts(b.proposals, recs), false)
    decreases |recs|
  {
    if recs != [] {
      var b' := b.(verdicts := MergedVerdict(b, recs[0].key.0, recs[0].key.1, recs[0].row));
      ApplyVerdictsIsLww(b', recs[1..]);
      if recs[0].key.0 in b.proposals {
        assert KeptVerdicts(b.proposals, recs)[0] == Record((recs[0].key.0, recs[0].key.1), recs[0].row);
        assert KeptVerdicts(b.proposals, recs)[1..] == KeptVerdicts(b.proposals, recs[1..]);
        MergedVerdictIsLww(b, recs[0].key.0, recs[0].key.1, recs[0].row);
      } else {
        assert KeptVerdicts(b.proposals, recs) == KeptVerdicts(b.proposals, recs[1..]);
      }
    }
  }

  // ----- Applying records in any order -----

  /** For the gossiped tables, applying the same records in another order or more than once gives the
      same result, as long as key and timestamp fix the content. */
  lemma AppsOrderIrrelevant(t: PresenceTable, a: seq<Record<(NodeId, string), App>>, b: seq<Record<(NodeId, string), App>>)
    requires Consistent(t, KeptApps(a)) && forall r :: r in a <==> r in b
    ensures ApplyApps(t, a) == ApplyApps(t, b)
  {
    ApplyAppsIsLww(t, a);
    ApplyAppsIsLww(t, b);
    forall r ensures r in KeptApps(a) <==> r in KeptApps(b) {
      FilterMember(a, NamesApp, r);
      FilterMember(b, NamesApp, r);
    }
    OrderIsIrrelevant(t, KeptApps(a), KeptApps(b), false, false);
  }

  lemma ProposalsOrderIrrelevant(t: ProposalTable, a: seq<Record<BanId, Proposal>>, b: seq<Record<BanId, Proposal>>)
    requires Consistent(t, a) && (forall r :: r in a <==> r in b) && forall r :: r in a ==> ProposalOk(r.row.body)
    ensures ApplyProposals(t, a) == ApplyProposals(t, b)
  {
    ApplyProposalsIsLww(t, a);
    ApplyProposalsIsLww(t, b);
    OrderIsIrrelevant(t, a, b, true, true);
  }

  lemma VerdictsOrderIrrelevant(b: Bans, x: seq<Record<(BanId, NodeId), bool>>, y: seq<Record<(BanId, NodeId), bool>>)
    requires Consistent(b.verdicts, KeptVerdicts(b.proposals, x)) && forall r :: r in x <==> r in y
    ensures ApplyVerdicts(b, x) == ApplyVerdicts(b, y)
  {
    ApplyVerdictsIsLww(b, x);
    ApplyVerdictsIsLww(b, y);
    forall r ensures r in KeptVerdicts(b.proposals, x) <==> r in KeptVerdicts(b.proposals, y) {
      FilterMember(x, IsKnown(b.proposals), r);
      FilterMember(y, IsKnown(b.proposals), r);
    }
    OrderIsIrrelevant(b.verdicts, KeptVerdicts(b.proposals, x), KeptVerdicts(b.proposals, y), false, false);
  }

  lemma StampsOfSameRelays(a: seq<RelayRecord>, b: seq<RelayRecord>)
    requires forall r :: r in a <==> r in b
    ensures forall r :: r in RelayStamps(a) <==> r in RelayStamps(b)
  {
    forall r | r in RelayStamps(a) ensures r in RelayStamps(b) {
      var i :| 0 <= i < |a| && RelayStamps(a)[i] == r;
      assert a[i] in b;
      var j :| 0 <= j < |b| && b[j] == a[i];
      assert RelayStamps(b)[j] == r;
    }
    forall r | r in RelayStamps(b) ensures r in RelayStamps(a) {
      var i :| 0 <= i < |b| && RelayStamps(b)[i] == r;
      assert b[i] in a;
      var j :| 0 <= j < |a| && a[j] == b[i];
      assert RelayStamps(a)[j] == r;
    }
  }

  lemma RelaysOrderIrrelevant(t: RelayTable, a: seq<RelayRecord>, b: seq<RelayRecord>)
    requires Consistent(Endpoints(t), RelayStamps(KeptRelays(a))) && forall r :: r in a <==> r in b
    ensures Endpoints(ApplyRelays(t, a)) == Endpoints(ApplyRelays(t, b))
  {
    ApplyRelaysIsLww(t, a);
    ApplyRelaysIsLww(t, b);
    forall r ensures r in KeptRelays(a) <==> r in KeptRelays(b) {
      FilterMember(a, RelayOk, r);
      FilterMember(b, RelayOk, r);
    }
    StampsOfSameRelays(KeptRelays(a), KeptRelays(b));
    OrderIsIrrelevant(Endpoints(t), RelayStamps(KeptRelays(a)), RelayStamps(KeptRelays(b)), false, false);
  }
}
