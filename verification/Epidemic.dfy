/** Any number of hubs gossiping: whoever has heard of the same hubs, directly or by relay, holds the same
    tables. Messages may be lost, repeated, delayed and reordered. */
module Epidemic {
  import opened Mesh
  import opened Lww
  import opened BanList
  import opened AppPresence
  import opened Gossip
  import opened Exchange

  // ----- One table of many hubs -----

  /** Every row of t is one that a hub in `of` started with. */
  ghost predicate Drawn<K(!new), V(!new)>(t: Table<K, V>, start: map<NodeId, Table<K, V>>, of: set<NodeId>) {
    forall k :: k in t ==> exists h :: h in of && h in start && k in start[h] && start[h][k] == t[k]
  }

  /** No row that a hub in `of` started with is missing or newer. */
  ghost predicate Covers<K(!new), V(!new)>(t: Table<K, V>, start: map<NodeId, Table<K, V>>, of: set<NodeId>) {
    forall h, k :: h in of && h in start && k in start[h] ==> k in t && start[h][k].at <= t[k].at
  }

  /** t holds, per key, the newest of the rows that the hubs in `of` started with. */
  ghost predicate Newest<K(!new), V(!new)>(t: Table<K, V>, start: map<NodeId, Table<K, V>>, of: set<NodeId>) {
    Drawn(t, start, of) && Covers(t, start, of)
  }

  /** Key and timestamp fix content across all hubs. */
  ghost predicate AllAgree<K(!new), V(!new)>(start: map<NodeId, Table<K, V>>) {
    forall g, h :: g in start && h in start ==> Agree(start[g], start[h])
  }

  lemma DrawnAgree<K(!new), V(!new)>(start: map<NodeId, Table<K, V>>, a: Table<K, V>, of: set<NodeId>,
                                     b: Table<K, V>, of': set<NodeId>)
    requires AllAgree(start) && Drawn(a, start, of) && Drawn(b, start, of')
    ensures Agree(a, b)
  {
    forall k | k in a && k in b && a[k].at == b[k].at ensures a[k] == b[k] {
      var g :| g in of && g in start && k in start[g] && start[g][k] == a[k];
      var h :| h in of' && h in start && k in start[h] && start[h][k] == b[k];
      assert Agree(start[g], start[h]);
    }
  }

  lemma DrawnJoin<K(!new), V(!new)>(start: map<NodeId, Table<K, V>>, a: Table<K, V>, of: set<NodeId>,
                                    b: Table<K, V>, of': set<NodeId>)
    requires Drawn(a, start, of) && Drawn(b, start, of')
    ensures Drawn(Join(a, b), start, of + of')
  {
    var t := Join(a, b);
    forall k | k in t ensures exists h :: h in of + of' && h in start && k in start[h] && start[h][k] == t[k] {
      if k in a && t[k] == a[k] {
        var h :| h in of && h in start && k in start[h] && start[h][k] == a[k];
        assert h in of + of';
      } else {
        var h :| h in of' && h in start && k in start[h] && start[h][k] == b[k];
        assert h in of + of';
      }
    }
  }

  lemma CoversJoin<K(!new), V(!new)>(start: map<NodeId, Table<K, V>>, a: Table<K, V>, of: set<NodeId>,
                                     b: Table<K, V>, of': set<NodeId>)
    requires Covers(a, start, of) && Covers(b, start, of')
    ensures Covers(Join(a, b), start, of + of')
  {
  }

  lemma NewestJoin<K(!new), V(!new)>(start: map<NodeId, Table<K, V>>, a: Table<K, V>, of: set<NodeId>,
                                     b: Table<K, V>, of': set<NodeId>)
    requires Newest(a, start, of) && Newest(b, start, of')
    ensures Newest(Join(a, b), start, of + of')
  {
    DrawnJoin(start, a, of, b, of');
    CoversJoin(start, a, of, b, of');
  }

  lemma NewestDominates<K(!new), V(!new)>(start: map<NodeId, Table<K, V>>, a: Table<K, V>, b: Table<K, V>, of: set<NodeId>, k: K)
    requires Drawn(a, start, of) && Covers(b, start, of) && k in a
    ensures k in b && a[k].at <= b[k].at
  {
    var h :| h in of && h in start && k in start[h] && start[h][k] == a[k];
  }

  /** The newest rows of the same hubs are the same rows. */
  lemma NewestIsUnique<K(!new), V(!new)>(start: map<NodeId, Table<K, V>>, a: Table<K, V>, b: Table<K, V>, of: set<NodeId>)
    requires Agree(a, b) && Newest(a, start, of) && Newest(b, start, of)
    ensures a == b
  {
    forall k | k in a ensures k in b && a[k].at <= b[k].at {
      NewestDominates(start, a, b, of, k);
    }
    forall k | k in b ensures k in a && b[k].at <= a[k].at {
      NewestDominates(start, b, a, of, k);
    }
  }

  lemma OwnIsNewest<K(!new), V(!new)>(start: map<NodeId, Table<K, V>>, h: NodeId)
    requires h in start
    ensures Newest(start[h], start, {h})
  {
  }

  // ----- All tables of many hubs -----

  function LastSeens(start: map<NodeId, HubTables>): map<NodeId, Table<NodeId, ()>> {
    map h | h in start :: LastSeen(start[h].nodes)
  }

  function AllEndpoints(start: map<NodeId, HubTables>): map<NodeId, Table<NodeId, (string, int)>> {
    map h | h in start :: Endpoints(start[h].relays)
  }

  function AllProposals(start: map<NodeId, HubTables>): map<NodeId, ProposalTable> {
    map h | h in start :: start[h].bans.proposals
  }

  function AllVerdicts(start: map<NodeId, HubTables>): map<NodeId, VerdictTable> {
    map h | h in start :: start[h].bans.verdicts
  }

  function AllApps(start: map<NodeId, HubTables>): map<NodeId, PresenceTable> {
    map h | h in start :: start[h].apps
  }

  /** What hubs may start with: rows that peers store as they are, and that agree on what key and
      timestamp stand for. */
  ghost predicate StartOk(start: map<NodeId, HubTables>) {
    && (forall h :: h in start ==> TablesOk(start[h]))
    && AllAgree(AllEndpoints(start)) && AllAgree(AllProposals(start)) && AllAgree(AllVerdicts(start))
    && AllAgree(AllApps(start))
  }

  /** No hub starts with a verdict in favour of a ban. */
  ghost predicate NoneAgreed(start: map<NodeId, HubTables>) {
    forall h, k :: h in start && k in start[h].bans.verdicts ==> !start[h].bans.verdicts[k].body
  }

  /** The tables hold the newest of what the hubs in `of` started with; of the presence rows too, if no
      ban is enforced anywhere. */
  ghost predicate Gathered(t: HubTables, start: map<NodeId, HubTables>, of: set<NodeId>) {
    && TablesOk(t)
    && Newest(LastSeen(t.nodes), LastSeens(start), of)
    && Newest(Endpoints(t.relays), AllEndpoints(start), of)
    && Newest(t.bans.proposals, AllProposals(start), of)
    && Newest(t.bans.verdicts, AllVerdicts(start), of)
    && Drawn(t.apps, AllApps(start), of)
    && (NoneAgreed(start) ==> Covers(t.apps, AllApps(start), of))
  }

  lemma GatheredAgree(start: map<NodeId, HubTables>, a: HubTables, of: set<NodeId>, b: HubTables, of': set<NodeId>)
    requires StartOk(start) && Gathered(a, start, of) && Gathered(b, start, of')
    ensures AgreeOn(a, b)
  {
    DrawnAgree(AllEndpoints(start), Endpoints(a.relays), of, Endpoints(b.relays), of');
    DrawnAgree(AllProposals(start), a.bans.proposals, of, b.bans.proposals, of');
    DrawnAgree(AllVerdicts(start), a.bans.verdicts, of, b.bans.verdicts, of');
    DrawnAgree(AllApps(start), a.apps, of, b.apps, of');
  }

  /** Without verdicts in favour, nothing is hidden. */
  lemma NothingHidden(start: map<NodeId, HubTables>, t: HubTables, of: set<NodeId>, self: NodeId)
    requires NoneAgreed(start) && Drawn(t.bans.verdicts, AllVerdicts(start), of)
    ensures Visible(t, self) == t.apps
  {
    forall k | k in t.bans.verdicts ensures !t.bans.verdicts[k].body {
      var h :| h in of && h in AllVerdicts(start) && k in AllVerdicts(start)[h] && AllVerdicts(start)[h][k] == t.bans.verdicts[k];
    }
    forall k | k in t.apps ensures !Enforced(t.bans, self, k.1, t.apps[k].body.version) {
    }
  }

  lemma GatherApps(start: map<NodeId, HubTables>, t: HubTables, of: set<NodeId>, s: HubTables, of': set<NodeId>, sender: NodeId)
    requires Gathered(t, start, of) && Gathered(s, start, of')
    ensures Drawn(Join(t.apps, Visible(s, sender)), AllApps(start), of + of')
    ensures NoneAgreed(start) ==> Covers(Join(t.apps, Visible(s, sender)), AllApps(start), of + of')
  {
    forall k | k in Visible(s, sender)
      ensures exists h :: h in of' && h in AllApps(start) && k in AllApps(start)[h] && AllApps(start)[h][k] == Visible(s, sender)[k]
    {
      assert k in s.apps && Visible(s, sender)[k] == s.apps[k];
    }
    DrawnJoin(AllApps(start), t.apps, of, Visible(s, sender), of');
    if NoneAgreed(start) {
      NothingHidden(start, s, of', sender);
      CoversJoin(AllApps(start), t.apps, of, s.apps, of');
    }
  }

  /** Applying what a hub gathered adds just that. */
  lemma ApplyGathers(start: map<NodeId, HubTables>, t: HubTables, of: set<NodeId>, s: HubTables, of': set<NodeId>, m: Message)
    requires StartOk(start) && Gathered(t, start, of) && Gathered(s, start, of') && Describes(m, s, m.from)
    ensures Gathered(Apply(t, m), start, of + of')
  {
    GatheredAgree(start, t, of, s, of');
    ApplyIsJoin(t, s, m.from, m);
    ApplyKeepsOk(t, s, m.from, m);
    NewestJoin(LastSeens(start), LastSeen(t.nodes), of, LastSeen(s.nodes), of');
    NewestJoin(AllEndpoints(start), Endpoints(t.relays), of, Endpoints(s.relays), of');
    NewestJoin(AllProposals(start), t.bans.proposals, of, s.bans.proposals, of');
    NewestJoin(AllVerdicts(start), t.bans.verdicts, of, s.bans.verdicts, of');
    GatherApps(start, t, of, s, of', m.from);
  }

  // ----- Runs -----

  /** A hub's tables and whom it has heard of, itself included. */
  datatype Hub = Hub(tables: HubTables, heard: set<NodeId>)

  /** A message, with the state of the hub that built it. */
  datatype Letter = Letter(message: Message, sender: Hub)

  /** `sent` keeps every message, any of which may arrive anywhere, any number of times. */
  datatype State = State(hubs: map<NodeId, Hub>, sent: seq<Letter>)

  datatype Step = Tell(h: NodeId, message: Message) | Hear(h: NodeId, i: nat)

  function Init(start: map<NodeId, HubTables>): State {
    State(map h | h in start :: Hub(start[h], {h}), [])
  }

  ghost predicate Enabled(s: State, step: Step) {
    && step.h in s.hubs
    && match step
       case Tell(h, m) => Describes(m, s.hubs[h].tables, h)
       case Hear(_, i) => i < |s.sent|
  }

  function Hears(hub: Hub, h: NodeId, l: Letter): Hub {
    if l.message.from == h then hub else Hub(Apply(hub.tables, l.message), hub.heard + l.sender.heard)
  }

  ghost function Next(s: State, step: Step): State
    requires Enabled(s, step)
  {
    match step
    case Tell(h, m) => s.(sent := s.sent + [Letter(m, s.hubs[h])])
    case Hear(h, i) => s.(hubs := s.hubs[h := Hears(s.hubs[h], h, s.sent[i])])
  }

  ghost predicate ValidRun(s: State, steps: seq<Step>)
    decreases |steps|
  {
    steps == [] || (Enabled(s, steps[0]) && ValidRun(Next(s, steps[0]), steps[1..]))
  }

  ghost function Run(s: State, steps: seq<Step>): State
    requires ValidRun(s, steps)
    decreases |steps|
  {
    if steps == [] then s else Run(Next(s, steps[0]), steps[1..])
  }

  ghost predicate HubOk(start: map<NodeId, HubTables>, hub: Hub) {
    Gathered(hub.tables, start, hub.heard)
  }

  ghost predicate LetterOk(start: map<NodeId, HubTables>, l: Letter) {
    Describes(l.message, l.sender.tables, l.message.from) && HubOk(start, l.sender)
  }

  ghost predicate Inv(start: map<NodeId, HubTables>, s: State) {
    && (forall h :: h in s.hubs ==> HubOk(start, s.hubs[h]))
    && forall l :: l in s.sent ==> LetterOk(start, l)
  }

  lemma OwnIsGathered(start: map<NodeId, HubTables>, h: NodeId)
    requires h in start && TablesOk(start[h])
    ensures HubOk(start, Hub(start[h], {h}))
  {
    OwnIsNewest(LastSeens(start), h);
    OwnIsNewest(AllEndpoints(start), h);
    OwnIsNewest(AllProposals(start), h);
    OwnIsNewest(AllVerdicts(start), h);
    OwnIsNewest(AllApps(start), h);
  }

  lemma InitInv(start: map<NodeId, HubTables>)
    requires StartOk(start)
    ensures Inv(start, Init(start))
  {
    forall h | h in start ensures HubOk(start, Hub(start[h], {h})) {
      OwnIsGathered(start, h);
    }
  }

  lemma HubChanges(start: map<NodeId, HubTables>, s: State, h: NodeId, hub: Hub)
    requires Inv(start, s) && h in s.hubs && HubOk(start, hub)
    ensures Inv(start, s.(hubs := s.hubs[h := hub]))
  {
  }

  lemma LetterSent(start: map<NodeId, HubTables>, s: State, l: Letter)
    requires Inv(start, s) && LetterOk(start, l)
    ensures Inv(start, s.(sent := s.sent + [l]))
  {
  }

  lemma LetterIsOk(start: map<NodeId, HubTables>, m: Message, sender: Hub, h: NodeId)
    requires Describes(m, sender.tables, h) && HubOk(start, sender)
    ensures LetterOk(start, Letter(m, sender))
  {
  }

  lemma HearingGathers(start: map<NodeId, HubTables>, hub: Hub, h: NodeId, l: Letter)
    requires StartOk(start) && HubOk(start, hub) && LetterOk(start, l)
    ensures HubOk(start, Hears(hub, h, l))
  {
    if l.message.from != h {
      ApplyGathers(start, hub.tables, hub.heard, l.sender.tables, l.sender.heard, l.message);
    }
  }

  lemma NextInv(start: map<NodeId, HubTables>, s: State, step: Step)
    requires StartOk(start) && Inv(start, s) && Enabled(s, step)
    ensures Inv(start, Next(s, step))
  {
    match step
    case Tell(h, m) =>
      LetterIsOk(start, m, s.hubs[h], h);
      LetterSent(start, s, Letter(m, s.hubs[h]));
    case Hear(h, i) =>
      assert s.sent[i] in s.sent;
      HearingGathers(start, s.hubs[h], h, s.sent[i]);
      HubChanges(start, s, h, Hears(s.hubs[h], h, s.sent[i]));
  }

  lemma {:induction false} RunInv(start: map<NodeId, HubTables>, s: State, steps: seq<Step>)
    requires StartOk(start) && Inv(start, s) && ValidRun(s, steps)
    ensures Inv(start, Run(s, steps))
    decreases |steps|
  {
    if steps != [] {
      NextInv(start, s, steps[0]);
      RunInv(start, Next(s, steps[0]), steps[1..]);
    }
  }

  /** Whatever was sent, lost and repeated: a hub holds, per key, the newest of the rows that the hubs it has
      heard of, directly or by relay, started with. */
  lemma HubsHoldWhatTheyHeard(start: map<NodeId, HubTables>, steps: seq<Step>, h: NodeId)
    requires StartOk(start) && ValidRun(Init(start), steps) && h in Run(Init(start), steps).hubs
    ensures var hub := Run(Init(start), steps).hubs[h]; Gathered(hub.tables, start, hub.heard)
  {
    InitInv(start);
    RunInv(start, Init(start), steps);
    assert HubOk(start, Run(Init(start), steps).hubs[h]);
  }

  /** So hubs that have heard of the same hubs, all of them for instance, hold the same rows; the same
      presence too, if no ban is enforced. */
  lemma SameHeardSameTables(start: map<NodeId, HubTables>, steps: seq<Step>, a: NodeId, b: NodeId)
    requires StartOk(start) && ValidRun(Init(start), steps)
    requires var s := Run(Init(start), steps); a in s.hubs && b in s.hubs && s.hubs[a].heard == s.hubs[b].heard
    ensures var s := Run(Init(start), steps);
            && Replicated(s.hubs[a].tables, s.hubs[b].tables)
            && (NoneAgreed(start) ==> s.hubs[a].tables.apps == s.hubs[b].tables.apps)
  {
    var s := Run(Init(start), steps);
    HubsHoldWhatTheyHeard(start, steps, a);
    HubsHoldWhatTheyHeard(start, steps, b);
    GatheredAlike(start, s.hubs[a].tables, s.hubs[b].tables, s.hubs[a].heard);
  }

  lemma GatheredAlike(start: map<NodeId, HubTables>, a: HubTables, b: HubTables, of: set<NodeId>)
    requires StartOk(start) && Gathered(a, start, of) && Gathered(b, start, of)
    ensures Replicated(a, b) && (NoneAgreed(start) ==> a.apps == b.apps)
  {
    GatheredAgree(start, a, of, b, of);
    NewestIsUnique(LastSeens(start), LastSeen(a.nodes), LastSeen(b.nodes), of);
    NewestIsUnique(AllEndpoints(start), Endpoints(a.relays), Endpoints(b.relays), of);
    NewestIsUnique(AllProposals(start), a.bans.proposals, b.bans.proposals, of);
    NewestIsUnique(AllVerdicts(start), a.bans.verdicts, b.bans.verdicts, of);
    if NoneAgreed(start) {
      NewestIsUnique(AllApps(start), a.apps, b.apps, of);
    }
  }
}
