/** The gossip engine: it appends a message row by row and applies one record by record
    (hub/internal/syncengine/syncengine.go). */
module SyncEngine {
  import opened Mesh
  import opened Lww
  import opened Registry
  import opened BanList
  import opened AppPresence
  import opened Gossip

  class Engine {
    const self: NodeId
    const registry: Registry
    const apps: PresenceStore
    const bans: BanStore

    constructor (self: NodeId, registry: Registry, apps: PresenceStore, bans: BanStore)
      ensures this.self == self && this.registry == registry && this.apps == apps && this.bans == bans
    {
      this.self, this.registry, this.apps, this.bans := self, registry, apps, bans;
    }

    function View(): HubTables
      reads this, registry, apps, bans
    {
      HubTables(registry.nodes, registry.relays, apps.apps, bans.bans)
    }

    method BuildMessage() returns (m: Message)
      ensures Describes(m, View(), self)
    {
      var nodes := BuildNodes();
      var relays := BuildRelays();
      var presence := BuildPresence();
      var proposals := BuildProposals();
      var verdicts := BuildVerdicts();
      m := Message(self, nodes, relays, presence, proposals, verdicts);
    }

    method BuildNodes() returns (recs: seq<NodeRecord>)
      ensures forall r :: r in recs <==> r.id in registry.nodes && r == EncodeNode(r.id, registry.nodes[r.id])
    {
      recs := [];
      var rest := registry.nodes.Keys;
      while rest != {}
        invariant rest <= registry.nodes.Keys
        invariant forall r :: r in recs <==>
                    r.id in registry.nodes.Keys - rest && r == EncodeNode(r.id, registry.nodes[r.id])
        decreases rest
      {
        var id :| id in rest;
        recs := recs + [EncodeNode(id, registry.nodes[id])];
        rest := rest - {id};
      }
    }

    method BuildRelays() returns (recs: seq<RelayRecord>)
      ensures forall r :: r in recs <==> r.id in registry.relays && r == EncodeRelay(r.id, registry.relays[r.id])
    {
      recs := [];
      var rest := registry.relays.Keys;
      while rest != {}
        invariant rest <= registry.relays.Keys
        invariant forall r :: r in recs <==>
                    r.id in registry.relays.Keys - rest && r == EncodeRelay(r.id, registry.relays[r.id])
        decreases rest
      {
        var id :| id in rest;
        recs := recs + [EncodeRelay(id, registry.relays[id])];
        rest := rest - {id};
      }
    }

    /** Presence rows, skipping the apps this hub enforces a ban on. */
    method BuildPresence() returns (recs: seq<Record<(NodeId, string), App>>)
      ensures Lists(recs, Visible(View(), self))
    {
      var all := apps.List();
      recs := [];
      for k := 0 to |all|
        invariant forall r :: r in recs ==> r.key in Visible(View(), self) && Visible(View(), self)[r.key] == r.row
        invariant forall i :: 0 <= i < k && all[i].key in Visible(View(), self) ==> all[i] in recs
      {
        var a := all[k];
        assert a in all;
        var blocked := bans.IsLocallyEnforced(self, a.key.1, a.row.body.version);
        if blocked {
          continue;
        }
        recs := recs + [a];
      }
      forall r: Record<(NodeId, string), App> | r.key in Visible(View(), self) && Visible(View(), self)[r.key] == r.row
        ensures r in recs
      {
        assert r in all;
      }
    }

    method BuildProposals() returns (recs: seq<Record<BanId, Proposal>>)
      ensures Lists(recs, bans.bans.proposals)
    {
      var proposals := bans.ListProposals();
      recs := [];
      for k := 0 to |proposals|
        invariant recs == proposals[..k]
      {
        recs := recs + [proposals[k]];
      }
      assert recs == proposals;
    }

    method BuildVerdicts() returns (recs: seq<Record<(BanId, NodeId), bool>>)
      ensures Lists(recs, bans.bans.verdicts)
    {
      recs := [];
      var rest := bans.bans.verdicts.Keys;
      while rest != {}
        invariant rest <= bans.bans.verdicts.Keys
        invariant forall r :: r in recs <==>
                    r.key in bans.bans.verdicts.Keys - rest && bans.bans.verdicts[r.key] == r.row
        decreases rest
      {
        var k :| k in rest;
        recs := recs + [Record(k, bans.bans.verdicts[k])];
        rest := rest - {k};
      }
    }

    /** receiveLoop's body: a message from oneself is ignored. */
    method Receive(m: Message)
      modifies registry`nodes, registry`relays, apps, bans
      ensures View() == if m.from == self then old(View()) else Gossip.Apply(old(View()), m)
    {
      if m.from != self {
        Apply(m);
      }
    }

    method Apply(m: Message)
      modifies registry`nodes, registry`relays, apps, bans
      ensures View() == Gossip.Apply(old(View()), m)
    {
      ApplyRegistry(m.nodes, m.relays);
      for k := 0 to |m.apps|
        modifies apps
        invariant ApplyApps(old(apps.apps), m.apps) == ApplyApps(apps.apps, m.apps[k..])
      {
        var r := m.apps[k];
        assert m.apps[k..][1..] == m.apps[k + 1..];
        if r.key.1 == "" {
          continue;
        }
        var _, _ := apps.MergeGossip(r.key.0, r.key.1, r.row);
      }
      ApplyBanRecords(m.proposals, m.verdicts);
    }

    method ApplyRegistry(nodes: seq<NodeRecord>, relays: seq<RelayRecord>)
      modifies registry`nodes, registry`relays
      ensures registry.nodes == ApplyNodes(old(registry.nodes), nodes)
      ensures registry.relays == ApplyRelays(old(registry.relays), relays)
    {
      for k := 0 to |nodes|
        modifies registry`nodes
        invariant ApplyNodes(old(registry.nodes), nodes) == ApplyNodes(registry.nodes, nodes[k..])
      {
        assert nodes[k..][1..] == nodes[k + 1..];
        var _ := registry.MergeGossipNode(nodes[k].id, DecodeNode(nodes[k]));
      }
      for k := 0 to |relays|
        modifies registry`relays
        invariant ApplyRelays(old(registry.relays), relays) == ApplyRelays(registry.relays, relays[k..])
      {
        var r := relays[k];
        assert relays[k..][1..] == relays[k + 1..];
        if r.ip == "" || r.port == 0 {
          continue;
        }
        var _ := registry.UpsertGossipRelay(r.id, r.ip, r.port, r.lastVerified);
      }
    }

    method ApplyBanRecords(proposals: seq<Record<BanId, Proposal>>, verdicts: seq<Record<(BanId, NodeId), bool>>)
      modifies bans
      ensures bans.bans == ApplyBans(old(bans.bans), proposals, verdicts)
    {
      for k := 0 to |proposals|
        invariant bans.bans.verdicts == old(bans.bans).verdicts
        invariant ApplyProposals(old(bans.bans).proposals, proposals) ==
                  ApplyProposals(bans.bans.proposals, proposals[k..])
      {
        assert proposals[k..][1..] == proposals[k + 1..];
        var _, _ := bans.MergeGossipProposal(proposals[k].key, proposals[k].row);
      }
      ghost var before := bans.bans;
      for k := 0 to |verdicts|
        invariant bans.bans.proposals == before.proposals
        invariant ApplyVerdicts(before, verdicts) == ApplyVerdicts(bans.bans, verdicts[k..])
      {
        var r := verdicts[k];
        assert verdicts[k..][1..] == verdicts[k + 1..];
        var _, _ := bans.MergeGossipVerdict(r.key.0, r.key.1, r.row);
      }
    }
  }
}
