/** Ban governance across a network of hubs: admins decide, hubs gossip, nobody enforces for another.
    Messages may be lost, repeated and reordered at will. */
module Governance {
  import opened Mesh
  import opened Lww
  import opened BanList
  import opened Gossip

  /** The ban part of a gossip message. */
  datatype Notice = Notice(from: NodeId, proposals: seq<Record<BanId, Proposal>>,
                           verdicts: seq<Record<(BanId, NodeId), bool>>)

  /** `sent` keeps every notice ever gossiped; any of them may still arrive anywhere, any number of times. */
  datatype State = State(bans: map<NodeId, Bans>, clock: map<NodeId, int>, sent: seq<Notice>)

  datatype Step =
    | Propose(h: NodeId, id: BanId, p: Stamped<Proposal>)
    | Decide(h: NodeId, id: BanId, agree: bool, now: int)
    | Sign(h: NodeId, id: BanId, signature: seq<int>)
    | Tell(h: NodeId, notice: Notice)
    | Hear(h: NodeId, i: nat)

  function Init(hubs: set<NodeId>): State {
    State(map h | h in hubs :: NO_BANS, map h | h in hubs :: 0, [])
  }

  /** Hubs gossip what their tables hold, and a hub's clock never goes back between decisions. */
  ghost predicate Enabled(s: State, step: Step) {
    && step.h in s.bans && step.h in s.clock
    && match step
       case Propose(_, _, _) => true
       case Decide(h, _, _, now) => now >= s.clock[h]
       case Sign(_, _, _) => true
       case Tell(h, n) => n.from == h && Lists(n.proposals, s.bans[h].proposals) && Lists(n.verdicts, s.bans[h].verdicts)
       case Hear(_, i) => i < |s.sent|
  }

  /** The effect of a step on the acting hub's ban tables. */
  function After(s: State, step: Step): Bans
    requires step.h in s.bans && (step.Hear? ==> step.i < |s.sent|)
  {
    var b := s.bans[step.h];
    match step
    case Propose(_, id, p) => (match Proposed(b.proposals, id, p) case Some(t) => b.(proposals := t) case None => b)
    case Decide(h, id, agree, now) =>
      (match Decided(b, id, h, Stamped(now, agree)) case Some(t) => b.(verdicts := t) case None => b)
    case Sign(_, id, signature) => b.(proposals := Signed(b.proposals, id, signature))
    case Tell(_, _) => b
    case Hear(h, i) =>
      if s.sent[i].from == h then b else ApplyBans(b, s.sent[i].proposals, s.sent[i].verdicts)
  }

  function Next(s: State, step: Step): State
    requires step.h in s.bans && (step.Hear? ==> step.i < |s.sent|)
  {
    State(s.bans[step.h := After(s, step)],
          if step.Decide? then s.clock[step.h := step.now] else s.clock,
          if step.Tell? then s.sent + [step.notice] else s.sent)
  }

  ghost predicate ValidRun(hubs: set<NodeId>, steps: seq<Step>)
    decreases |steps|, 0
  {
    steps == [] ||
    var before := steps[..|steps| - 1];
    ValidRun(hubs, before) && Enabled(Run(hubs, before), steps[|steps| - 1])
  }

  ghost function Run(hubs: set<NodeId>, steps: seq<Step>): State
    requires ValidRun(hubs, steps)
    decreases |steps|, 1
  {
    if steps == [] then Init(hubs)
    else Next(Run(hubs, steps[..|steps| - 1]), steps[|steps| - 1])
  }

  // ----- Nobody speaks for another hub -----

  /** The hub a verdict is attributed to holds one at least as recent. */
  predicate Owned(s: State, k: (BanId, NodeId), row: Stamped<bool>) {
    k.1 in s.bans && k in s.bans[k.1].verdicts && row.at <= s.bans[k.1].verdicts[k].at
  }

  ghost predicate Inv(s: State) {
    && s.bans.Keys == s.clock.Keys
    && (forall h, k :: h in s.bans && k in s.bans[h].verdicts ==> Owned(s, k, s.bans[h].verdicts[k]))
    && (forall n, r :: n in s.sent && r in n.verdicts ==> Owned(s, r.key, r.row))
    && (forall h, id :: h in s.bans && (id, h) in s.bans[h].verdicts ==> s.bans[h].verdicts[(id, h)].at <= s.clock[h])
  }

  /** Every verdict after a merge was there before or came in a record; and no record that the local
      row is at least as recent as has any effect. */
  lemma {:induction false} ApplyVerdictsFrom(b: Bans, recs: seq<Record<(BanId, NodeId), bool>>, k: (BanId, NodeId))
    ensures k in ApplyVerdicts(b, recs) ==>
            (k in b.verdicts && ApplyVerdicts(b, recs)[k] == b.verdicts[k]) || Record(k, ApplyVerdicts(b, recs)[k]) in recs
    ensures k in b.verdicts ==> k in ApplyVerdicts(b, recs)
    ensures k in b.verdicts && (forall r :: r in recs && r.key == k ==> r.row.at <= b.verdicts[k].at) ==>
            ApplyVerdicts(b, recs)[k] == b.verdicts[k]
    decreases |recs|
  {
    if recs != [] {
      var r := recs[0];
      assert r == Record((r.key.0, r.key.1), r.row);
      var b' := b.(verdicts := MergedVerdict(b, r.key.0, r.key.1, r.row));
      ApplyVerdictsFrom(b', recs[1..], k);
    }
  }

  /** Hearing gossip never changes a hub's own verdict. */
  lemma HearKeepsOwnVerdict(s: State, h: NodeId, i: nat, id: BanId)
    requires Inv(s) && Enabled(s, Hear(h, i))
    ensures (id, h) in After(s, Hear(h, i)).verdicts <==> (id, h) in s.bans[h].verdicts
    ensures (id, h) in s.bans[h].verdicts ==> After(s, Hear(h, i)).verdicts[(id, h)] == s.bans[h].verdicts[(id, h)]
  {
    var b, n := s.bans[h], s.sent[i];
    assert n in s.sent;
    var known := b.(proposals := ApplyProposals(b.proposals, n.proposals));
    ApplyVerdictsFrom(known, n.verdicts, (id, h));
    forall r | r in n.verdicts && r.key == (id, h) ensures Owned(s, r.key, r.row) {
    }
  }

  lemma HearKeepsInv(s: State, h: NodeId, i: nat)
    requires Inv(s) && Enabled(s, Hear(h, i))
    ensures Inv(Next(s, Hear(h, i)))
  {
    var s' := Next(s, Hear(h, i));
    var n := s.sent[i];
    assert n in s.sent;
    forall id: BanId ensures (id, h) in s'.bans[h].verdicts <==> (id, h) in s.bans[h].verdicts
              ensures (id, h) in s.bans[h].verdicts ==> s'.bans[h].verdicts[(id, h)] == s.bans[h].verdicts[(id, h)]
    {
      HearKeepsOwnVerdict(s, h, i, id);
    }
    forall k: (BanId, NodeId), row: Stamped<bool> | Owned(s, k, row) ensures Owned(s', k, row) {
      assert k == (k.0, k.1);
    }
    forall k | k in s'.bans[h].verdicts ensures Owned(s', k, s'.bans[h].verdicts[k]) {
      var b := s.bans[h];
      ApplyVerdictsFrom(b.(proposals := ApplyProposals(b.proposals, n.proposals)), n.verdicts, k);
      if !(k in b.verdicts && s'.bans[h].verdicts[k] == b.verdicts[k]) {
        var r := Record(k, s'.bans[h].verdicts[k]);
        assert r in n.verdicts;
        assert Owned(s, r.key, r.row);
      }
    }
  }

  lemma DecideKeepsInv(s: State, h: NodeId, id: BanId, agree: bool, now: int)
    requires Inv(s) && Enabled(s, Decide(h, id, agree, now))
    ensures Inv(Next(s, Decide(h, id, agree, now)))
  {
    var s' := Next(s, Decide(h, id, agree, now));
    if id in s.bans[h].proposals {
      var own := (id, h);
      var t := s.bans[h].verdicts[own := Stamped(now, agree)];
      assert s'.bans[h].verdicts == t;
      forall k: (BanId, NodeId), row: Stamped<bool> | Owned(s, k, row) ensures Owned(s', k, row) {
      }
      forall g, k | g in s'.bans && k in s'.bans[g].verdicts ensures Owned(s', k, s'.bans[g].verdicts[k]) {
        if g != h || k != own {
          assert Owned(s, k, s.bans[g].verdicts[k]);
        }
      }
    } else {
      SameVerdicts(s.(clock := s'.clock), s');
    }
  }

  lemma TellKeepsInv(s: State, h: NodeId, n: Notice)
    requires Inv(s) && Enabled(s, Tell(h, n))
    ensures Inv(Next(s, Tell(h, n)))
  {
    var s' := Next(s, Tell(h, n));
    assert s'.bans == s.bans;
    forall r | r in n.verdicts ensures Owned(s, r.key, r.row) {
      assert Owned(s, r.key, s.bans[h].verdicts[r.key]);
    }
    forall k: (BanId, NodeId), row: Stamped<bool> | Owned(s, k, row) ensures Owned(s', k, row) {
    }
  }

  lemma NextKeepsInv(s: State, step: Step)
    requires Inv(s) && Enabled(s, step)
    ensures Inv(Next(s, step))
  {
    match step
    case Decide(h, id, agree, now) => DecideKeepsInv(s, h, id, agree, now);
    case Tell(h, n) => TellKeepsInv(s, h, n);
    case Hear(h, i) => HearKeepsInv(s, h, i);
    case Propose(_, _, _) => SameVerdicts(s, Next(s, step));
    case Sign(_, _, _) => SameVerdicts(s, Next(s, step));
  }

  lemma SameVerdicts(s: State, s': State)
    requires Inv(s) && s'.clock == s.clock && s'.sent == s.sent && s'.bans.Keys == s.bans.Keys
    requires forall h :: h in s.bans ==> s'.bans[h].verdicts == s.bans[h].verdicts
    ensures Inv(s')
  {
    forall k: (BanId, NodeId), row: Stamped<bool> | Owned(s, k, row) ensures Owned(s', k, row) {
    }
  }

  lemma {:induction false} RunInv(hubs: set<NodeId>, steps: seq<Step>)
    requires ValidRun(hubs, steps)
    ensures Inv(Run(hubs, steps))
    decreases |steps|
  {
    if steps != [] {
      RunInv(hubs, steps[..|steps| - 1]);
      NextKeepsInv(Run(hubs, steps[..|steps| - 1]), steps[|steps| - 1]);
    }
  }

  // ----- Enforcement follows the hub's own admin -----

  /** The latest decision the admin of h made on a ban, accepted or not. */
  function LastDecision(steps: seq<Step>, h: NodeId, id: BanId): Option<bool>
    decreases |steps|
  {
    if steps == [] then None
    else
      var last := steps[|steps| - 1];
      if last.Decide? && last.h == h && last.id == id then Some(last.agree)
      else LastDecision(steps[..|steps| - 1], h, id)
  }

  lemma VerdictsOnlyByDeciding(s: State, step: Step, h: NodeId, id: BanId)
    requires Inv(s) && Enabled(s, step) && h in s.bans
    requires !(step.Decide? && step.h == h && step.id == id)
    ensures var t, t' := s.bans[h].verdicts, Next(s, step).bans[h].verdicts;
            ((id, h) in t' <==> (id, h) in t) && ((id, h) in t ==> t'[(id, h)] == t[(id, h)])
  {
    if step.h == h && step.Hear? {
      HearKeepsOwnVerdict(s, h, step.i, id);
    }
  }

  /** Bans, once known to a hub, stay known, so its later decisions on them are never refused. */
  lemma {:induction false} ApplyProposalsGrows(t: ProposalTable, recs: seq<Record<BanId, Proposal>>, id: BanId)
    requires id in t
    ensures id in ApplyProposals(t, recs)
    decreases |recs|
  {
    if recs != [] {
      ApplyProposalsGrows(MergedProposal(t, recs[0].key, recs[0].row), recs[1..], id);
    }
  }

  lemma ProposalsStay(s: State, step: Step, h: NodeId, id: BanId)
    requires Enabled(s, step) && h in s.bans && id in s.bans[h].proposals
    ensures id in Next(s, step).bans[h].proposals
  {
    if step.h == h && step.Hear? {
      ApplyProposalsGrows(s.bans[h].proposals, s.sent[step.i].proposals, id);
    }
  }

  /** A hub's own row in ban_verdicts is its admin's latest decision, and exists only for bans it knows. */
  lemma {:induction false} OwnVerdictIsLastDecision(hubs: set<NodeId>, steps: seq<Step>, h: NodeId, id: BanId)
    requires ValidRun(hubs, steps) && h in Run(hubs, steps).bans
    requires (id, h) in Run(hubs, steps).bans[h].verdicts
    ensures LastDecision(steps, h, id) == Some(Run(hubs, steps).bans[h].verdicts[(id, h)].body)
    ensures id in Run(hubs, steps).bans[h].proposals
    decreases |steps|
  {
    if steps != [] {
      var before, last := steps[..|steps| - 1], steps[|steps| - 1];
      RunInv(hubs, before);
      var s := Run(hubs, before);
      if last.Decide? && last.h == h && last.id == id {
        if id !in s.bans[h].proposals {
          OwnVerdictIsLastDecision(hubs, before, h, id);
        }
      } else {
        VerdictsOnlyByDeciding(s, last, h, id);
        OwnVerdictIsLastDecision(hubs, before, h, id);
        ProposalsStay(s, last, h, id);
      }
    }
  }

  /** On every honest run, a hub enforces a ban on an app version only if its own admin's latest
      decision on a ban id whose stored proposal covers that version is Agree. */
  lemma EnforcedOnlyByOwnAdmin(hubs: set<NodeId>, steps: seq<Step>, h: NodeId, app: string, version: string)
    requires ValidRun(hubs, steps) && h in Run(hubs, steps).bans
    requires Enforced(Run(hubs, steps).bans[h], h, app, version)
    ensures exists id :: BansVersion(Run(hubs, steps).bans[h], h, id, app, version) &&
                         LastDecision(steps, h, id) == Some(true)
  {
    var b := Run(hubs, steps).bans[h];
    var id :| id in b.proposals && BansVersion(b, h, id, app, version);
    OwnVerdictIsLastDecision(hubs, steps, h, id);
  }

  /** Conversely a hub whose admin never agreed to anything enforces nothing, whatever it hears. */
  lemma NeverAutoEnforced(hubs: set<NodeId>, steps: seq<Step>, h: NodeId, app: string, version: string)
    requires ValidRun(hubs, steps) && h in Run(hubs, steps).bans
    requires forall step :: step in steps && step.Decide? && step.h == h ==> !step.agree
    ensures !Enforced(Run(hubs, steps).bans[h], h, app, version)
  {
    if Enforced(Run(hubs, steps).bans[h], h, app, version) {
      EnforcedOnlyByOwnAdmin(hubs, steps, h, app, version);
      var id :| BansVersion(Run(hubs, steps).bans[h], h, id, app, version) && LastDecision(steps, h, id) == Some(true);
      DecisionWasMade(steps, h, id, true);
    }
  }

  lemma {:induction false} DecisionWasMade(steps: seq<Step>, h: NodeId, id: BanId, agree: bool)
    requires LastDecision(steps, h, id) == Some(agree)
    ensures exists j :: 0 <= j < |steps| && steps[j].Decide? && steps[j].h == h && steps[j].id == id && steps[j].agree == agree
    decreases |steps|
  {
    var before, last := steps[..|steps| - 1], steps[|steps| - 1];
    if !(last.Decide? && last.h == h && last.id == id) {
      DecisionWasMade(before, h, id, agree);
      var j :| 0 <= j < |before| && before[j].Decide? && before[j].h == h && before[j].id == id && before[j].agree == agree;
      assert steps[j] == before[j];
    }
  }

  // ----- What a ban id stands for -----

  /** Some step of the run proposed this id with this scope. */
  ghost predicate WasProposed(steps: seq<Step>, id: BanId, scope: (string, string)) {
    exists j :: 0 <= j < |steps| && steps[j].Propose? && steps[j].id == id && Scope(Normalized(steps[j].p.body)) == scope
  }

  lemma ProposedEarlier(steps: seq<Step>, n: nat, id: BanId, scope: (string, string))
    requires n <= |steps| && WasProposed(steps[..n], id, scope)
    ensures WasProposed(steps, id, scope)
  {
    var j :| 0 <= j < n && steps[..n][j].Propose? && steps[..n][j].id == id &&
             Scope(Normalized(steps[..n][j].p.body)) == scope;
    assert steps[j] == steps[..n][j];
  }

  /** Every proposal held or gossiped anywhere has a scope that some hub proposed for its id. */
  ghost predicate ScopesKnown(steps: seq<Step>, s: State) {
    && (forall h, id :: h in s.bans && id in s.bans[h].proposals ==>
          WasProposed(steps, id, Scope(s.bans[h].proposals[id].body)) && Complete(s.bans[h].proposals[id].body))
    && forall n, r :: n in s.sent && r in n.proposals ==>
          WasProposed(steps, r.key, Scope(r.row.body)) && Complete(r.row.body)
  }

  lemma {:induction false} ApplyProposalsFrom(t: ProposalTable, recs: seq<Record<BanId, Proposal>>, id: BanId)
    requires forall r :: r in recs ==> Complete(r.row.body)
    ensures id in ApplyProposals(t, recs) ==>
            (id in t && ApplyProposals(t, recs)[id] == t[id]) || Record(id, ApplyProposals(t, recs)[id]) in recs
    decreases |recs|
  {
    if recs != [] {
      assert Normalized(recs[0].row.body) == recs[0].row.body;
      ApplyProposalsFrom(MergedProposal(t, recs[0].key, recs[0].row), recs[1..], id);
    }
  }

  lemma NextScopes(steps: seq<Step>, s: State, step: Step, h: NodeId, id: BanId)
    requires ScopesKnown(steps, s) && Enabled(s, step) && h in s.bans && id in Next(s, step).bans[h].proposals
    ensures var p := Next(s, step).bans[h].proposals[id].body;
            Complete(p) && (WasProposed(steps, id, Scope(p)) ||
                              (step.Propose? && step.id == id && Scope(p) == Scope(Normalized(step.p.body))))
  {
    if step.h == h && step.Hear? {
      var n := s.sent[step.i];
      assert n in s.sent;
      ApplyProposalsFrom(s.bans[h].proposals, n.proposals, id);
    }
  }

  lemma {:induction false} RunScopes(hubs: set<NodeId>, steps: seq<Step>)
    requires ValidRun(hubs, steps)
    ensures ScopesKnown(steps, Run(hubs, steps))
    decreases |steps|
  {
    if steps != [] {
      var before, last := steps[..|steps| - 1], steps[|steps| - 1];
      RunScopes(hubs, before);
      var s, s' := Run(hubs, before), Run(hubs, steps);
      forall h, id | h in s'.bans && id in s'.bans[h].proposals
        ensures WasProposed(steps, id, Scope(s'.bans[h].proposals[id].body)) && Complete(s'.bans[h].proposals[id].body)
      {
        NextScopes(before, s, last, h, id);
        if WasProposed(before, id, Scope(s'.bans[h].proposals[id].body)) {
          ProposedEarlier(steps, |before|, id, Scope(s'.bans[h].proposals[id].body));
        } else {
          assert steps[|steps| - 1] == last;
        }
      }
      forall n, r | n in s'.sent && r in n.proposals
        ensures WasProposed(steps, r.key, Scope(r.row.body)) && Complete(r.row.body)
      {
        if n !in s.sent {
          assert r.key in s.bans[last.h].proposals && s.bans[last.h].proposals[r.key] == r.row;
        }
        ProposedEarlier(steps, |before|, r.key, Scope(r.row.body));
      }
    }
  }

  /** No two proposals share an id but differ in scope. */
  ghost predicate IdsFixScope(steps: seq<Step>) {
    forall id, x, y :: WasProposed(steps, id, x) && WasProposed(steps, id, y) ==> x == y
  }

  /** The admin of h agreed to this id at a moment when the proposal on h had this scope. */
  ghost predicate AgreedToScope(hubs: set<NodeId>, steps: seq<Step>, h: NodeId, id: BanId, scope: (string, string))
    requires ValidRun(hubs, steps)
  {
    exists j :: 0 <= j < |steps| && steps[j].Decide? && steps[j].h == h && steps[j].id == id && steps[j].agree &&
                RunBefore(hubs, steps, j) && h in Run(hubs, steps[..j]).bans &&
                id in Run(hubs, steps[..j]).bans[h].proposals &&
                Scope(Run(hubs, steps[..j]).bans[h].proposals[id].body) == scope
  }

  ghost predicate RunBefore(hubs: set<NodeId>, steps: seq<Step>, j: nat)
    requires j <= |steps|
  {
    ValidRun(hubs, steps[..j])
  }

  /** The last step in which the admin of h decided on the ban; the length of the run if there is none. */
  function LastDecided(steps: seq<Step>, h: NodeId, id: BanId): nat
    decreases |steps|
  {
    if steps == [] then 0
    else
      var last := steps[|steps| - 1];
      if last.Decide? && last.h == h && last.id == id then |steps| - 1
      else
        var j := LastDecided(steps[..|steps| - 1], h, id);
        if j == |steps| - 1 then |steps| else j
  }

  /** If a hub holds a verdict of its own after a decision, it knew the ban when it was made. */
  lemma DecidedIsKnown(hubs: set<NodeId>, before: seq<Step>, last: Step)
    requires ValidRun(hubs, before) && last.Decide? && Enabled(Run(hubs, before), last)
    requires (last.id, last.h) in Next(Run(hubs, before), last).bans[last.h].verdicts
    ensures last.id in Run(hubs, before).bans[last.h].proposals
  {
    if (last.id, last.h) in Run(hubs, before).bans[last.h].verdicts {
      OwnVerdictIsLastDecision(hubs, before, last.h, last.id);
    }
  }

  lemma {:induction false} LastDecidedIsLast(steps: seq<Step>, h: NodeId, id: BanId, agree: bool)
    requires LastDecision(steps, h, id) == Some(agree)
    ensures var j := LastDecided(steps, h, id);
            j < |steps| && steps[j].Decide? && steps[j].h == h && steps[j].id == id && steps[j].agree == agree
    decreases |steps|
  {
    var last := steps[|steps| - 1];
    if !(last.Decide? && last.h == h && last.id == id) {
      LastDecidedIsLast(steps[..|steps| - 1], h, id, agree);
    }
  }

  /** The hub knows the ban at this moment of the run. */
  ghost predicate KnownAt(hubs: set<NodeId>, steps: seq<Step>, j: nat, h: NodeId, id: BanId)
    requires j <= |steps|
  {
    RunBefore(hubs, steps, j) && h in Run(hubs, steps[..j]).bans && id in Run(hubs, steps[..j]).bans[h].proposals
  }

  lemma {:induction false} KnownWhenDecided(hubs: set<NodeId>, steps: seq<Step>, h: NodeId, id: BanId)
    requires ValidRun(hubs, steps) && h in Run(hubs, steps).bans && (id, h) in Run(hubs, steps).bans[h].verdicts
    requires LastDecided(steps, h, id) < |steps|
    ensures KnownAt(hubs, steps, LastDecided(steps, h, id), h, id)
    decreases |steps|
  {
    var before, last := steps[..|steps| - 1], steps[|steps| - 1];
    if last.Decide? && last.h == h && last.id == id {
      DecidedIsKnown(hubs, before, last);
    } else {
      RunInv(hubs, before);
      VerdictsOnlyByDeciding(Run(hubs, before), last, h, id);
      KnownWhenDecided(hubs, before, h, id);
      assert before[..LastDecided(before, h, id)] == steps[..LastDecided(before, h, id)];
    }
  }

  /** A stored Agree goes back to the admin's last decision, made while the hub knew the ban. */
  lemma AgreementHasMoment(hubs: set<NodeId>, steps: seq<Step>, h: NodeId, id: BanId) returns (j: nat)
    requires ValidRun(hubs, steps) && h in Run(hubs, steps).bans
    requires (id, h) in Run(hubs, steps).bans[h].verdicts && Run(hubs, steps).bans[h].verdicts[(id, h)].body
    ensures j == LastDecided(steps, h, id)
    ensures j < |steps| && steps[j].Decide? && steps[j].h == h && steps[j].id == id && steps[j].agree
    ensures KnownAt(hubs, steps, j, h, id)
  {
    j := LastDecided(steps, h, id);
    OwnVerdictIsLastDecision(hubs, steps, h, id);
    LastDecidedIsLast(steps, h, id, true);
    KnownWhenDecided(hubs, steps, h, id);
  }

  // ----- Exactly what a hub enforces -----

  /** The admin's latest decision on the ban is Agree, taken while the hub knew the ban. */
  ghost predicate AgreesTo(hubs: set<NodeId>, steps: seq<Step>, h: NodeId, id: BanId) {
    && LastDecision(steps, h, id) == Some(true)
    && LastDecided(steps, h, id) < |steps| && KnownAt(hubs, steps, LastDecided(steps, h, id), h, id)
  }

  /** The other half of OwnVerdictIsLastDecision: a decision on a known ban is stored and stays. */
  lemma {:induction false} DecisionIsStored(hubs: set<NodeId>, steps: seq<Step>, h: NodeId, id: BanId)
    requires ValidRun(hubs, steps) && h in Run(hubs, steps).bans
    requires LastDecided(steps, h, id) < |steps| && KnownAt(hubs, steps, LastDecided(steps, h, id), h, id)
    ensures (id, h) in Run(hubs, steps).bans[h].verdicts
    decreases |steps|
  {
    var before, last := steps[..|steps| - 1], steps[|steps| - 1];
    if !(last.Decide? && last.h == h && last.id == id) {
      assert before[..LastDecided(before, h, id)] == steps[..LastDecided(before, h, id)];
      RunInv(hubs, before);
      DecisionIsStored(hubs, before, h, id);
      VerdictsOnlyByDeciding(Run(hubs, before), last, h, id);
    }
  }

  lemma AgreedExactly(hubs: set<NodeId>, steps: seq<Step>, h: NodeId, id: BanId)
    requires ValidRun(hubs, steps) && h in Run(hubs, steps).bans
    ensures var t := Run(hubs, steps).bans[h].verdicts;
            (id, h) in t && t[(id, h)].body <==> AgreesTo(hubs, steps, h, id)
  {
    var t := Run(hubs, steps).bans[h].verdicts;
    if (id, h) in t && t[(id, h)].body {
      var _ := AgreementHasMoment(hubs, steps, h, id);
      OwnVerdictIsLastDecision(hubs, steps, h, id);
    }
    if AgreesTo(hubs, steps, h, id) {
      DecisionIsStored(hubs, steps, h, id);
      OwnVerdictIsLastDecision(hubs, steps, h, id);
    }
  }

  /** On every honest run, a hub enforces a ban on an app version if and only if some proposal it holds names the
      app, covers the version as ranges are read, and its own admin's latest decision on it is Agree. */
  lemma EnforcedExactly(hubs: set<NodeId>, steps: seq<Step>, h: NodeId, app: string, version: string)
    requires ValidRun(hubs, steps) && h in Run(hubs, steps).bans
    ensures var b := Run(hubs, steps).bans[h];
            Enforced(b, h, app, version) <==>
            exists id :: id in b.proposals && b.proposals[id].body.appId == app
              && Covers(b.proposals[id].body.versionRange, version) && AgreesTo(hubs, steps, h, id)
  {
    var b := Run(hubs, steps).bans[h];
    EnforcedByOwnAgree(b, h, app, version);
    forall id: BanId ensures (id, h) in b.verdicts && b.verdicts[(id, h)].body <==> AgreesTo(hubs, steps, h, id) {
      AgreedExactly(hubs, steps, h, id);
    }
  }

  /** In particular, a hub whose admin agreed to one ban on an app, on one version of it, enforces exactly that
      version of that app. */
  lemma ExactBanIsExact(hubs: set<NodeId>, steps: seq<Step>, h: NodeId, id: BanId, app: string, banned: string, version: string)
    requires ValidRun(hubs, steps) && h in Run(hubs, steps).bans && id in Run(hubs, steps).bans[h].proposals
    requires var p := Run(hubs, steps).bans[h].proposals[id].body;
             p.appId == app && IsCore(banned, p.versionRange) && Reads(banned, Exactly(banned))
    requires AgreesTo(hubs, steps, h, id)
    requires forall other :: other in Run(hubs, steps).bans[h].proposals && AgreesTo(hubs, steps, h, other) ==>
               other == id || Run(hubs, steps).bans[h].proposals[other].body.appId != app
    ensures Enforced(Run(hubs, steps).bans[h], h, app, version) <==> version == banned
  {
    var p := Run(hubs, steps).bans[h].proposals[id].body;
    EnforcedExactly(hubs, steps, h, app, version);
    CoversExactly(p.versionRange, version);
    RangeCoversExactly(p.versionRange, banned, Exactly(banned), version);
  }

  /** If ban ids fix their scope, a hub enforces only what its admin agreed to: the admin said Agree
      at a moment when the proposal read exactly as it does now. */
  lemma EnforcedIsWhatWasAgreed(hubs: set<NodeId>, steps: seq<Step>, h: NodeId, app: string, version: string)
    requires ValidRun(hubs, steps) && h in Run(hubs, steps).bans && IdsFixScope(steps)
    requires Enforced(Run(hubs, steps).bans[h], h, app, version)
    ensures exists id, range :: AgreedToScope(hubs, steps, h, id, (app, range)) && VersionInRange(version, range)
  {
    var b := Run(hubs, steps).bans[h];
    var id :| id in b.proposals && BansVersion(b, h, id, app, version);
    var j := AgreementHasMoment(hubs, steps, h, id);
    var agreed := Run(hubs, steps[..j]).bans[h].proposals[id].body;
    RunScopes(hubs, steps);
    RunScopes(hubs, steps[..j]);
    ProposedEarlier(steps, j, id, Scope(agreed));
    assert Scope(agreed) == Scope(b.proposals[id].body);
    assert RunBefore(hubs, steps, j);
    assert AgreedToScope(hubs, steps, h, id, (app, b.proposals[id].body.versionRange));
  }

  // ----- Exactly when an agreed ban changes under the admin -----

  /** The step is hub h hearing a signed record for the ban, not older than its own, that bans something
      else. */
  ghost predicate SwitchesScope(s: State, step: Step, h: NodeId, id: BanId)
    requires h in s.bans && id in s.bans[h].proposals
  {
    && step.Hear? && step.h == h && step.i < |s.sent| && s.sent[step.i].from != h
    && exists r :: r in s.sent[step.i].proposals && r.key == id && Overwrites(s.bans[h].proposals, id, r.row)
                   && Scope(r.row.body) != Scope(s.bans[h].proposals[id].body)
  }

  /** A notice carries at most one version of each proposal. */
  ghost predicate OneVersion(recs: seq<Record<BanId, Proposal>>) {
    forall r, r' :: r in recs && r' in recs && r.key == r'.key ==> r == r'
  }

  lemma {:induction false} RunOneVersion(hubs: set<NodeId>, steps: seq<Step>)
    requires ValidRun(hubs, steps)
    ensures forall n :: n in Run(hubs, steps).sent ==> OneVersion(n.proposals)
    decreases |steps|
  {
    if steps != [] {
      RunOneVersion(hubs, steps[..|steps| - 1]);
    }
  }

  /** Applying records that agree with each other: the one for this ban decides. */
  lemma {:induction false} ApplyOneVersion(t: ProposalTable, recs: seq<Record<BanId, Proposal>>, id: BanId)
    requires id in t && OneVersion(recs)
    ensures id in ApplyProposals(t, recs)
    ensures (forall r :: r in recs && r.key == id ==> !Overwrites(t, id, r.row)) ==> ApplyProposals(t, recs)[id] == t[id]
    ensures forall r :: r in recs && r.key == id && Overwrites(t, id, r.row) ==> ApplyProposals(t, recs)[id] == r.row
    decreases |recs|
  {
    if recs != [] {
      var t' := MergedProposal(t, recs[0].key, recs[0].row);
      assert recs[0] in recs;
      ApplyOneVersion(t', recs[1..], id);
      if recs[0].key == id && Overwrites(t, id, recs[0].row) {
        assert forall r :: r in recs && r.key == id ==> r == recs[0];
        assert ApplyProposals(t', recs[1..])[id] == recs[0].row;
      }
    }
  }

  /** One step of any run: what a known ban stands for on hub h changes exactly if h hears such a record. */
  lemma ScopeStepsExactly(hubs: set<NodeId>, steps: seq<Step>, step: Step, h: NodeId, id: BanId)
    requires ValidRun(hubs, steps) && Enabled(Run(hubs, steps), step)
    requires h in Run(hubs, steps).bans && id in Run(hubs, steps).bans[h].proposals
    ensures var s := Run(hubs, steps);
            && id in Next(s, step).bans[h].proposals
            && (Scope(Next(s, step).bans[h].proposals[id].body) != Scope(s.bans[h].proposals[id].body) <==>
                SwitchesScope(s, step, h, id))
  {
    var s := Run(hubs, steps);
    if step.Hear? && step.h == h {
      var n := s.sent[step.i];
      RunOneVersion(hubs, steps);
      assert n in s.sent;
      ApplyOneVersion(s.bans[h].proposals, n.proposals, id);
    }
  }

  /** What ban id stands for on hub h after the first k steps. */
  ghost function ScopeAt(hubs: set<NodeId>, steps: seq<Step>, k: nat, h: NodeId, id: BanId): Option<(string, string)>
    requires ValidRun(hubs, steps) && k <= |steps|
  {
    PrefixIsValid(hubs, steps, k);
    var s := Run(hubs, steps[..k]);
    if h in s.bans && id in s.bans[h].proposals then Some(Scope(s.bans[h].proposals[id].body)) else None
  }

  ghost predicate SwitchesAt(hubs: set<NodeId>, steps: seq<Step>, k: nat, h: NodeId, id: BanId)
    requires ValidRun(hubs, steps) && k < |steps|
  {
    PrefixIsValid(hubs, steps, k);
    var s := Run(hubs, steps[..k]);
    h in s.bans && id in s.bans[h].proposals && SwitchesScope(s, steps[k], h, id)
  }

  lemma {:induction false} PrefixIsValid(hubs: set<NodeId>, steps: seq<Step>, k: nat)
    requires ValidRun(hubs, steps) && k <= |steps|
    ensures ValidRun(hubs, steps[..k])
    ensures k < |steps| ==> Enabled(Run(hubs, steps[..k]), steps[k])
                            && ValidRun(hubs, steps[..k + 1])
                            && Run(hubs, steps[..k + 1]) == Next(Run(hubs, steps[..k]), steps[k])
    decreases |steps|
  {
    if k == |steps| {
      assert steps[..k] == steps;
    } else if k == |steps| - 1 {
      assert steps[..k + 1] == steps;
    } else {
      var before := steps[..|steps| - 1];
      PrefixIsValid(hubs, before, k);
      assert before[..k] == steps[..k] && before[..k + 1] == steps[..k + 1] && before[k] == steps[k];
    }
  }

  lemma ScopeMovesExactly(hubs: set<NodeId>, steps: seq<Step>, k: nat, h: NodeId, id: BanId)
    requires ValidRun(hubs, steps) && k < |steps| && ScopeAt(hubs, steps, k, h, id).Some?
    ensures ScopeAt(hubs, steps, k + 1, h, id).Some?
    ensures ScopeAt(hubs, steps, k + 1, h, id) != ScopeAt(hubs, steps, k, h, id) <==> SwitchesAt(hubs, steps, k, h, id)
  {
    PrefixIsValid(hubs, steps, k);
    ScopeStepsExactly(hubs, steps[..k], steps[k], h, id);
  }

  /** From the moment j an admin can see a ban on hub h: it goes on standing for what it stood for then, at
      every later moment of the run, if and only if h never hears a record that switches it. */
  lemma {:induction false} AgreementStandsExactly(hubs: set<NodeId>, steps: seq<Step>, j: nat, h: NodeId, id: BanId)
    requires ValidRun(hubs, steps) && j <= |steps| && ScopeAt(hubs, steps, j, h, id).Some?
    ensures (forall k :: j <= k <= |steps| ==> ScopeAt(hubs, steps, k, h, id) == ScopeAt(hubs, steps, j, h, id)) <==>
            (forall k :: j <= k < |steps| ==> !SwitchesAt(hubs, steps, k, h, id))
    decreases |steps| - j
  {
    if j < |steps| {
      ScopeMovesExactly(hubs, steps, j, h, id);
      AgreementStandsExactly(hubs, steps, j + 1, h, id);
    }
  }

  /** So what hub h enforces reads as its admin agreed to it unless h has since heard a switching record,
      which h can tell before it merges one. */
  lemma EnforcedReadsAsAgreed(hubs: set<NodeId>, steps: seq<Step>, h: NodeId, id: BanId, app: string, version: string)
    requires ValidRun(hubs, steps) && h in Run(hubs, steps).bans
    requires BansVersion(Run(hubs, steps).bans[h], h, id, app, version)
    requires forall k :: LastDecided(steps, h, id) <= k < |steps| ==> !SwitchesAt(hubs, steps, k, h, id)
    ensures exists range :: AgreedToScope(hubs, steps, h, id, (app, range)) && VersionInRange(version, range)
  {
    var p := Run(hubs, steps).bans[h].proposals[id].body;
    var j := AgreementHasMoment(hubs, steps, h, id);
    AgreementStandsExactly(hubs, steps, j, h, id);
    assert steps[..|steps|] == steps;
    assert ScopeAt(hubs, steps, |steps|, h, id) == ScopeAt(hubs, steps, j, h, id);
    assert RunBefore(hubs, steps, j);
    assert AgreedToScope(hubs, steps, h, id, (app, p.versionRange));
  }

  // ----- What colliding ids do -----

  lemma ExtendRun(hubs: set<NodeId>, steps: seq<Step>, step: Step)
    requires ValidRun(hubs, steps) && Enabled(Run(hubs, steps), step)
    ensures ValidRun(hubs, steps + [step]) && Run(hubs, steps + [step]) == Next(Run(hubs, steps), step)
  {
    var longer := steps + [step];
    assert longer[..|longer| - 1] == steps && longer[|longer| - 1] == step;
  }

  lemma ExtendByFour(hubs: set<NodeId>, steps: seq<Step>, a: Step, b: Step, c: Step, d: Step)
    requires ValidRun(hubs, steps) && Enabled(Run(hubs, steps), a) && Enabled(Next(Run(hubs, steps), a), b)
    requires Enabled(Next(Next(Run(hubs, steps), a), b), c) && Enabled(Next(Next(Next(Run(hubs, steps), a), b), c), d)
    ensures ValidRun(hubs, steps + [a, b, c, d])
    ensures Run(hubs, steps + [a, b, c, d]) == Next(Next(Next(Next(Run(hubs, steps), a), b), c), d)
  {
    ExtendRun(hubs, steps, a);
    ExtendRun(hubs, steps + [a], b);
    ExtendRun(hubs, steps + [a] + [b], c);
    ExtendRun(hubs, steps + [a] + [b] + [c], d);
    assert steps + [a, b, c, d] == steps + [a] + [b] + [c] + [d];
  }

  /** A proposal as the Monitor files it: its id is never set, so it is always 0. */
  function Filed(app: string, hub: NodeId, at: int): Stamped<Proposal> {
    Stamped(at, Proposal(app, "*", "", hub, []))
  }

  lemma AgreeToFirst(x: string) returns (steps: seq<Step>)
    requires x != ""
    ensures steps == [Propose(1, 0, Filed(x, 1, 1)), Decide(1, 0, true, 2)]
    ensures ValidRun({1, 2}, steps[..1]) && 1 in Run({1, 2}, steps[..1]).bans
    ensures Run({1, 2}, steps[..1]).bans[1].proposals == map[0 := Filed(x, 1, 1)]
    ensures ValidRun({1, 2}, steps)
    ensures var s := Run({1, 2}, steps);
            && s.bans.Keys == s.clock.Keys == {1, 2} && s.sent == [] && s.bans[2] == NO_BANS
            && s.bans[1] == Bans(map[0 := Filed(x, 1, 1)], map[(0, 1) := Stamped(2, true)])
  {
    var first, second := Propose(1, 0, Filed(x, 1, 1)), Decide(1, 0, true, 2);
    ExtendRun({1, 2}, [], first);
    assert [] + [first] == [first];
    ExtendRun({1, 2}, [first], second);
    steps := [first, second];
    assert [first] + [second] == steps && steps[..1] == [first];
  }

  /** The same once the hub has signed it, as it does before it gossips. */
  function SignedBy(p: Stamped<Proposal>, signature: seq<int>): Stamped<Proposal> {
    p.(body := p.body.(signature := signature))
  }

  /** Hub 2 files a ban on app y, signs it and gossips it; hub 1 hears of it. */
  function FromAfar(y: string, signature: seq<int>): seq<Step> {
    [Propose(2, 0, Filed(y, 2, 3)), Sign(2, 0, signature),
     Tell(2, Notice(2, [Record(0, SignedBy(Filed(y, 2, 3), signature))], [])), Hear(1, 0)]
  }

  lemma FiledAndSigned(s: State, y: string, signature: seq<int>) returns (s': State)
    requires y != "" && signature != [] && s.bans.Keys == s.clock.Keys == {1, 2} && s.bans[2] == NO_BANS
    ensures var steps := FromAfar(y, signature);
            && Enabled(s, steps[0]) && Enabled(Next(s, steps[0]), steps[1]) && s' == Next(Next(s, steps[0]), steps[1])
            && s'.bans.Keys == s'.clock.Keys == {1, 2} && s'.bans[1] == s.bans[1] && s'.sent == s.sent
            && s'.bans[2] == Bans(map[0 := SignedBy(Filed(y, 2, 3), signature)], map[])
  {
    var steps := FromAfar(y, signature);
    var s1 := Next(s, steps[0]);
    assert s1.bans[2].proposals == map[0 := Filed(y, 2, 3)];
    s' := Next(s1, steps[1]);
  }

  lemma OverwriteFromAfar(s: State, x: string, y: string, signature: seq<int>)
    requires signature != [] && s.bans.Keys == s.clock.Keys == {1, 2} && s.sent == []
    requires s.bans[2] == Bans(map[0 := SignedBy(Filed(y, 2, 3), signature)], map[])
    requires s.bans[1] == Bans(map[0 := Filed(x, 1, 1)], map[(0, 1) := Stamped(2, true)])
    ensures var steps := FromAfar(y, signature);
            && Enabled(s, steps[2]) && Enabled(Next(s, steps[2]), steps[3])
            && Next(Next(s, steps[2]), steps[3]).bans[1] ==
               Bans(map[0 := SignedBy(Filed(y, 2, 3), signature)], map[(0, 1) := Stamped(2, true)])
  {
    var row := SignedBy(Filed(y, 2, 3), signature);
    var recs := [Record(0, row)];
    var s1 := Next(s, FromAfar(y, signature)[2]);
    assert s1.sent == [Notice(2, recs, [])] && s1.bans[1] == s.bans[1];
    assert recs[1..] == [] && Overwrites(s.bans[1].proposals, 0, row);
    assert ApplyProposals(s.bans[1].proposals, recs) == map[0 := row];
  }

  /** With the ids the Monitor produces the condition fails, and so does the promise: hub 1 agrees to a
      ban on app x; hub 2 proposes one on app y, which gets the same id, and signs it; one gossip message
      later hub 1 enforces the ban on y, which its admin never agreed to. */
  lemma CollidingIdsSwitchTheBan(x: string, y: string, version: string, signature: seq<int>) returns (steps: seq<Step>)
    requires x != "" && y != "" && x != y && signature != []
    ensures ValidRun({1, 2}, steps) && 1 in Run({1, 2}, steps).bans
    ensures Enforced(Run({1, 2}, steps).bans[1], 1, y, version)
    ensures forall id, range :: !AgreedToScope({1, 2}, steps, 1, id, (y, range))
  {
    var start := AgreeToFirst(x);
    var s := FiledAndSigned(Run({1, 2}, start), y, signature);
    OverwriteFromAfar(s, x, y, signature);
    var more := FromAfar(y, signature);
    ExtendByFour({1, 2}, start, more[0], more[1], more[2], more[3]);
    assert [more[0], more[1], more[2], more[3]] == more;
    steps := start + more;
    StarCovers(Run({1, 2}, steps).bans[1], y, version, signature);
    NeverAgreedTo(start, more, x, y);
  }

  lemma StarCovers(b: Bans, y: string, version: string, signature: seq<int>)
    requires b == Bans(map[0 := SignedBy(Filed(y, 2, 3), signature)], map[(0, 1) := Stamped(2, true)])
    ensures Enforced(b, 1, y, version)
  {
    assert TrimSpace("*") == "*";
    assert BansVersion(b, 1, 0, y, version);
  }

  lemma NeverAgreedTo(start: seq<Step>, more: seq<Step>, x: string, y: string)
    requires |start| == 2 && start[0].Propose? && (forall s :: s in more ==> !s.Decide?)
    requires ValidRun({1, 2}, start + more) && x != y
    requires ValidRun({1, 2}, start[..1]) && 1 in Run({1, 2}, start[..1]).bans
    requires Run({1, 2}, start[..1]).bans[1].proposals == map[0 := Filed(x, 1, 1)]
    ensures forall id, range :: !AgreedToScope({1, 2}, start + more, 1, id, (y, range))
  {
    var steps := start + more;
    assert steps[..1] == start[..1];
    forall j | 0 <= j < |steps| && steps[j].Decide? ensures j == 1 {
    }
  }
}
