/** App bans: proposals, per-hub verdicts, local enforcement (core/banlist/store.go). */
module BanList {
  import opened Mesh
  import opened Lww

  /** A 16-byte ban id read as a number. */
  type BanId = nat

  datatype Proposal = Proposal(appId: string, versionRange: string, reason: string,
                               proposedBy: NodeId, signature: seq<int>)

  type ProposalTable = Table<BanId, Proposal>

  /** ban_verdicts, keyed by ban and hub; the body says whether the hub agrees. */
  type VerdictTable = Table<(BanId, NodeId), bool>

  datatype Bans = Bans(proposals: ProposalTable, verdicts: VerdictTable)

  const NO_BANS := Bans(map[], map[])

  // ----- Version ranges -----

  /** The characters strings.TrimSpace removes (unicode.IsSpace). */
  predicate IsSpace(c: char) {
    var n := c as int;
    || 9 <= n <= 13 || n == 32 || n == 0x85 || n == 0xA0 || n == 0x1680 || 0x2000 <= n <= 0x200a
    || n == 0x2028 || n == 0x2029 || n == 0x202f || n == 0x205f || n == 0x3000
  }

  function TrimLeft(s: string): string {
    if s != "" && IsSpace(s[0]) then TrimLeft(s[1..]) else s
  }

  function TrimRight(s: string): string {
    if s != "" && IsSpace(s[|s| - 1]) then TrimRight(s[..|s| - 1]) else s
  }

  function TrimSpace(s: string): string {
    TrimRight(TrimLeft(s))
  }

  predicate HasPrefix(s: string, p: string) {
    |p| <= |s| && s[..|p|] == p
  }

  predicate HasSuffix(s: string, p: string) {
    |p| <= |s| && s[|s| - |p|..] == p
  }

  function TrimSuffix(s: string, p: string): string {
    if HasSuffix(s, p) then s[..|s| - |p|] else s
  }

  predicate VersionInRange(version: string, versionRange: string) {
    var r := TrimSpace(versionRange);
    if r == "" || r == "*" then true
    else if HasSuffix(r, ".*") || HasSuffix(r, ".x") then
      HasPrefix(version, TrimSuffix(TrimSuffix(r, ".*"), ".x"))
    else if HasSuffix(r, "*") then HasPrefix(version, TrimSuffix(r, "*"))
    else version == r
  }

  /** The code points with Unicode's White_Space property. */
  lemma SpacesAre(c: char)
    ensures IsSpace(c) <==> c as int in {9, 10, 11, 12, 13, 32, 0x85, 0xA0, 0x1680, 0x2000, 0x2001, 0x2002, 0x2003, 0x2004,
                                         0x2005, 0x2006, 0x2007, 0x2008, 0x2009, 0x200a, 0x2028, 0x2029, 0x202f, 0x205f, 0x3000}
  {
  }

  ghost predicate Blank(s: string) {
    forall i :: 0 <= i < |s| ==> IsSpace(s[i])
  }

  /** `core` is s without the space around it. */
  ghost predicate IsCore(core: string, s: string) {
    && (core != "" ==> !IsSpace(core[0]) && !IsSpace(core[|core| - 1]))
    && exists left, right :: Blank(left) && Blank(right) && s == left + core + right
  }

  lemma {:induction false} TrimLeftSkips(left: string, rest: string)
    requires Blank(left) && (rest != "" ==> !IsSpace(rest[0]))
    ensures TrimLeft(left + rest) == rest
  {
    if left == "" {
      assert left + rest == rest;
    } else {
      assert (left + rest)[0] == left[0] && (left + rest)[1..] == left[1..] + rest;
      TrimLeftSkips(left[1..], rest);
    }
  }

  lemma {:induction false} TrimRightSkips(rest: string, right: string)
    requires Blank(right) && (rest != "" ==> !IsSpace(rest[|rest| - 1]))
    ensures TrimRight(rest + right) == rest
    decreases |right|
  {
    var s := rest + right;
    if right == "" {
      assert s == rest;
    } else {
      assert s[|s| - 1] == right[|right| - 1] && s[..|s| - 1] == rest + right[..|right| - 1];
      TrimRightSkips(rest, right[..|right| - 1]);
    }
  }

  lemma {:induction false} TrimLeftSplits(s: string) returns (left: string)
    ensures Blank(left) && s == left + TrimLeft(s)
    ensures TrimLeft(s) != "" ==> !IsSpace(TrimLeft(s)[0])
  {
    left := "";
    if s != "" && IsSpace(s[0]) {
      left := TrimLeftSplits(s[1..]);
      left := [s[0]] + left;
    }
  }

  lemma {:induction false} TrimRightSplits(s: string) returns (right: string)
    ensures Blank(right) && s == TrimRight(s) + right
    ensures TrimRight(s) != "" ==> !IsSpace(TrimRight(s)[|TrimRight(s)| - 1])
  {
    right := "";
    if s != "" && IsSpace(s[|s| - 1]) {
      right := TrimRightSplits(s[..|s| - 1]);
      right := right + [s[|s| - 1]];
    }
  }

  /** TrimSpace finds the core, and there is only one. */
  lemma TrimSpaceIsCore(s: string)
    ensures IsCore(TrimSpace(s), s)
  {
    var left := TrimLeftSplits(s);
    var right := TrimRightSplits(TrimLeft(s));
    assert s == left + TrimSpace(s) + right;
    assert TrimSpace(s) != "" ==> TrimSpace(s)[0] == TrimLeft(s)[0];
  }

  lemma CoreIsTrimSpace(core: string, s: string)
    requires IsCore(core, s)
    ensures TrimSpace(s) == core
  {
    var left, right :| Blank(left) && Blank(right) && s == left + core + right;
    if core == "" {
      assert s == (left + right) + "";
      TrimLeftSkips(left + right, "");
    } else {
      assert s == left + (core + right) && (core + right)[0] == core[0];
      TrimLeftSkips(left, core + right);
      TrimRightSkips(core, right);
    }
  }

  ghost predicate StartsWith(version: string, p: string) {
    exists rest :: version == p + rest
  }

  lemma HasPrefixIsStart(version: string, p: string)
    ensures HasPrefix(version, p) <==> StartsWith(version, p)
  {
    if HasPrefix(version, p) {
      assert version == p + version[|p|..];
    }
  }

  /** The forms a range can take, as its documentation has them. */
  datatype RangeForm = Everything | Prefixed(p: string) | Exactly(v: string)

  /** How a range without space around it reads: "" and "*" are everything, "p*", "p.x" and "p.*" are prefixes
      (of which ".*" drops a final ".x" of p too), anything else is one version. */
  ghost predicate Reads(core: string, form: RangeForm) {
    match form
    case Everything => core == "" || core == "*"
    case Prefixed(p) =>
      || core == p + ".x"
      || (core == p + ".*" && !(|p| >= 2 && p[|p| - 2..] == ".x"))
      || core == p + ".x.*"
      || (core == p + "*" && p != "" && p[|p| - 1] != '.')
    case Exactly(v) =>
      && core == v && v != "" && v[|v| - 1] != '*'
      && !(|v| >= 2 && v[|v| - 2..] == ".x")
  }

  ghost predicate FormCovers(form: RangeForm, version: string) {
    match form
    case Everything => true
    case Prefixed(p) => StartsWith(version, p)
    case Exactly(v) => version == v
  }

  /** A range covers exactly the versions its form names, space around it aside. */
  lemma RangeCoversExactly(range: string, core: string, form: RangeForm, version: string)
    requires IsCore(core, range) && Reads(core, form)
    ensures VersionInRange(version, range) <==> FormCovers(form, version)
  {
    CoreIsTrimSpace(core, range);
    if form.Prefixed? {
      HasPrefixIsStart(version, form.p);
      PrefixOf(core, form.p);
    }
  }

  /** The prefix that the two suffix branches find. */
  lemma PrefixOf(core: string, p: string)
    requires Reads(core, Prefixed(p))
    ensures core != "" && core != "*"
    ensures if HasSuffix(core, ".*") || HasSuffix(core, ".x") then TrimSuffix(TrimSuffix(core, ".*"), ".x") == p
            else HasSuffix(core, "*") && TrimSuffix(core, "*") == p
  {
    if core == p + ".x" {
      EndsIn(p, ".x");
    } else if core == p + ".x.*" {
      assert core == (p + ".x") + ".*";
      EndsIn(p + ".x", ".*");
      EndsIn(p, ".x");
    } else if core == p + ".*" && !(|p| >= 2 && p[|p| - 2..] == ".x") {
      EndsIn(p, ".*");
    } else {
      EndsIn(p, "*");
      assert core[|core| - 2] == p[|p| - 1] && core[|core| - 1] == '*';
    }
  }

  lemma EndsIn(p: string, suffix: string)
    ensures HasSuffix(p + suffix, suffix) && TrimSuffix(p + suffix, suffix) == p
  {
  }

  /** Every range has a form, so the law above says all there is to say. */
  lemma RangeHasForm(range: string) returns (core: string, form: RangeForm)
    ensures IsCore(core, range) && Reads(core, form)
  {
    core := TrimSpace(range);
    TrimSpaceIsCore(range);
    var n := |core|;
    if core == "" || core == "*" {
      form := Everything;
    } else if HasSuffix(core, ".x") {
      form := Prefixed(core[..n - 2]);
      assert core == core[..n - 2] + ".x";
    } else if HasSuffix(core, ".*") {
      assert core == core[..n - 2] + ".*";
      if HasSuffix(core[..n - 2], ".x") {
        form := Prefixed(core[..n - 4]);
        assert core[..n - 2] == core[..n - 4] + ".x";
        assert core == core[..n - 4] + ".x.*";
      } else {
        form := Prefixed(core[..n - 2]);
      }
    } else if core[n - 1] == '*' {
      form := Prefixed(core[..n - 1]);
      assert core == core[..n - 1] + "*";
      assert core[n - 2..] == [core[n - 2], '*'];
    } else {
      form := Exactly(core);
    }
  }

  /** The range as its documentation reads it covers this version. */
  ghost predicate Covers(range: string, version: string) {
    exists core, form :: IsCore(core, range) && Reads(core, form) && FormCovers(form, version)
  }

  lemma CoversExactly(range: string, version: string)
    ensures VersionInRange(version, range) <==> Covers(range, version)
  {
    var core, form := RangeHasForm(range);
    RangeCoversExactly(range, core, form, version);
    if Covers(range, version) {
      var core', form' :| IsCore(core', range) && Reads(core', form') && FormCovers(form', version);
      RangeCoversExactly(range, core', form', version);
    }
  }

  lemma {:induction false} TrimLeftOfDotStar(p: string)
    ensures TrimSpace(p + ".*") == TrimLeft(p) + ".*"
  {
    var r := p + ".*";
    if p != "" && IsSpace(p[0]) {
      assert r[0] == p[0] && r[1..] == p[1..] + ".*";
      TrimLeftOfDotStar(p[1..]);
    } else {
      assert r[0] == (if p == "" then '.' else p[0]) && r[|r| - 1] == '*';
      assert TrimLeft(r) == r;
    }
  }

  /** A range "p.*" bans exactly the versions that start with p, whether or not a dot follows; leading space
      and a final ".x" of p do not count. */
  lemma DotStarIgnoresTheDot(p: string, version: string)
    ensures VersionInRange(version, p + ".*") <==> HasPrefix(version, TrimSuffix(TrimLeft(p), ".x"))
  {
    TrimLeftOfDotStar(p);
    var r := TrimLeft(p) + ".*";
    assert r[|r| - 2..] == ".*" && TrimSuffix(r, ".*") == TrimLeft(p);
    assert r != "" && r != "*";
  }

  /** So a ban on 1.* also covers 10.2. */
  lemma BanOnOneCoversTen()
    ensures VersionInRange("10.2", "1.*")
  {
    assert "1" + ".*" == "1.*";
    DotStarIgnoresTheDot("1", "10.2");
  }

  // ----- Table operations -----

  function Normalized(p: Proposal): Proposal {
    if p.versionRange == "" then p.(versionRange := "*") else p
  }

  /** INSERT into ban_list: refused for an empty app id and for a known ban id. */
  function Proposed(t: ProposalTable, id: BanId, p: Stamped<Proposal>): Option<ProposalTable> {
    if p.body.appId == "" || id in t then None else Some(t[id := Stamped(p.at, Normalized(p.body))])
  }

  /** SetVerdict: refused by the foreign key when the ban is unknown. */
  function Decided(b: Bans, id: BanId, hub: NodeId, v: Stamped<bool>): Option<VerdictTable> {
    if id in b.proposals then Some(b.verdicts[(id, hub) := v]) else None
  }

  function Signed(t: ProposalTable, id: BanId, signature: seq<int>): ProposalTable {
    if id in t then t[id := t[id].(body := t[id].body.(signature := signature))] else t
  }

  /** An update writes the record as it is, and is refused without a signature: an empty one arrives as
      NULL, which the column does not take. */
  predicate Overwrites(t: ProposalTable, id: BanId, p: Stamped<Proposal>)
    requires id in t
  {
    p.at >= t[id].at && p.body.signature != []
  }

  function MergedProposal(t: ProposalTable, id: BanId, p: Stamped<Proposal>): ProposalTable {
    if id !in t then (match Proposed(t, id, p) case Some(t') => t' case None => t)
    else if Overwrites(t, id, p) then t[id := p]
    else t
  }

  function MergedVerdict(b: Bans, id: BanId, hub: NodeId, v: Stamped<bool>): VerdictTable {
    if (id, hub) in b.verdicts && v.at <= b.verdicts[(id, hub)].at then b.verdicts
    else match Decided(b, id, hub, v) case Some(t') => t' case None => b.verdicts
  }

  /** A proposal that is inserted unchanged. */
  predicate Complete(p: Proposal) {
    p.appId != "" && p.versionRange != ""
  }

  /** A proposal every hub accepts and stores unchanged. */
  predicate ProposalOk(p: Proposal) {
    Complete(p) && p.signature != []
  }

  /** Proposals are complete and every verdict is about a known ban. */
  ghost predicate BansWf(b: Bans) {
    && (forall id :: id in b.proposals ==> ProposalOk(b.proposals[id].body))
    && forall k :: k in b.verdicts ==> k.0 in b.proposals
  }

  /** On complete proposals the merge is last-writer-wins, ties going to the record. */
  lemma MergedProposalIsLww(t: ProposalTable, id: BanId, p: Stamped<Proposal>)
    requires ProposalOk(p.body)
    ensures MergedProposal(t, id, p) == Merge(t, Record(id, p), true)
  {
  }

  /** On verdicts about known bans the merge is last-writer-wins, ties going to the local row. */
  lemma MergedVerdictIsLww(b: Bans, id: BanId, hub: NodeId, v: Stamped<bool>)
    requires id in b.proposals
    ensures MergedVerdict(b, id, hub, v) == Merge(b.verdicts, Record((id, hub), v), false)
  {
  }

  /** Completeness is needed. Repeating a record changes the table exactly when it was new, named an app,
      left the range empty and is signed: inserting stores "*", merging the very same record again "". */
  lemma RepeatIsHarmlessExactly(t: ProposalTable, id: BanId, p: Stamped<Proposal>)
    ensures var once := MergedProposal(t, id, p);
            MergedProposal(once, id, p) == once <==>
            id in t || p.body.appId == "" || p.body.versionRange != "" || p.body.signature == []
  {
    var once := MergedProposal(t, id, p);
    var twice := MergedProposal(once, id, p);
    if id !in t && p.body.appId != "" && p.body.versionRange == "" && p.body.signature != [] {
      assert once[id].body.versionRange == "*" && twice[id].body.versionRange == "";
    }
  }

  /** For instance, a signed ban on app x proposed for all versions by leaving the range empty. */
  lemma RepeatChangesTheBan()
    ensures var p := Stamped(1, Proposal("x", "", "", 1, [1]));
            var once := MergedProposal(map[], 0, p);
            MergedProposal(once, 0, p) != once
  {
    var none: ProposalTable := map[];
    RepeatIsHarmlessExactly(none, 0, Stamped(1, Proposal("x", "", "", 1, [1])));
  }

  /** Two records for a new ban, the one older than the other. */
  predicate NewBanSwaps(older: Proposal, newer: Proposal) {
    older.appId == "" || (newer.appId == "" && newer.signature == []) || ProposalOk(newer)
  }

  /** Two records for a new ban with the same timestamp. */
  predicate NewTieSwaps(a: Proposal, b: Proposal) {
    if a.appId == "" then b.appId == "" || a.signature == []
    else if b.appId == "" then b.signature == []
    else if a.signature != [] && b.signature != [] then a == b
    else if a.signature != [] then a.versionRange != ""
    else if b.signature != [] then b.versionRange != ""
    else Normalized(a) == Normalized(b)
  }

  /** When two records for one ban may come in either order. */
  predicate Swaps(t: ProposalTable, id: BanId, a: Stamped<Proposal>, b: Stamped<Proposal>) {
    if id in t then
      a.at != b.at || a == b || a.at < t[id].at || a.body.signature == [] || b.body.signature == []
    else if a.at < b.at then NewBanSwaps(a.body, b.body)
    else if b.at < a.at then NewBanSwaps(b.body, a.body)
    else NewTieSwaps(a.body, b.body)
  }

  /** And two records can be swapped exactly then: for a known ban, unless both overwrite it with the same
      timestamp and differ; for a new one, if the older names no app, or the newer is dropped either way, or
      it is complete and signed; and for a tie on a new ban, as NewTieSwaps tells. */
  lemma SwapIsHarmlessExactly(t: ProposalTable, id: BanId, a: Stamped<Proposal>, b: Stamped<Proposal>)
    ensures MergedProposal(MergedProposal(t, id, a), id, b) == MergedProposal(MergedProposal(t, id, b), id, a)
            <==> Swaps(t, id, a, b)
  {
    if id in t {
      KnownSwaps(t, id, a, b);
    } else if a.at < b.at {
      NewSwaps(t, id, a, b);
    } else if b.at < a.at {
      NewSwaps(t, id, b, a);
    } else {
      TieSwaps(t, id, a, b);
    }
  }

  lemma KnownSwaps(t: ProposalTable, id: BanId, a: Stamped<Proposal>, b: Stamped<Proposal>)
    requires id in t
    ensures MergedProposal(MergedProposal(t, id, a), id, b) == MergedProposal(MergedProposal(t, id, b), id, a)
            <==> Swaps(t, id, a, b)
  {
    var x := MergedProposal(MergedProposal(t, id, a), id, b);
    var y := MergedProposal(MergedProposal(t, id, b), id, a);
    assert x == y <==> x[id] == y[id];
  }

  lemma NewSwaps(t: ProposalTable, id: BanId, older: Stamped<Proposal>, newer: Stamped<Proposal>)
    requires id !in t && older.at < newer.at
    ensures MergedProposal(MergedProposal(t, id, older), id, newer) == MergedProposal(MergedProposal(t, id, newer), id, older)
            <==> NewBanSwaps(older.body, newer.body)
  {
    var x := MergedProposal(MergedProposal(t, id, older), id, newer);
    var y := MergedProposal(MergedProposal(t, id, newer), id, older);
    if older.body.appId != "" && newer.body.appId != "" && newer.body.signature == [] {
      assert x[id].at == older.at && y[id].at == newer.at;
    } else if older.body.appId != "" && newer.body.signature != [] && !Complete(newer.body) {
      assert x[id] == newer;
      assert Complete(y[id].body);
    }
  }

  lemma TieSwaps(t: ProposalTable, id: BanId, a: Stamped<Proposal>, b: Stamped<Proposal>)
    requires id !in t && a.at == b.at
    ensures MergedProposal(MergedProposal(t, id, a), id, b) == MergedProposal(MergedProposal(t, id, b), id, a)
            <==> NewTieSwaps(a.body, b.body)
  {
    var x := MergedProposal(MergedProposal(t, id, a), id, b);
    var y := MergedProposal(MergedProposal(t, id, b), id, a);
    if id in x && id in y {
      assert x == y <==> x[id] == y[id];
    }
  }

  /** For instance, an older signed record of app x and a newer one that is not signed. */
  lemma SwapChangesTheBan()
    ensures var older, newer := Stamped(1, Proposal("x", "*", "", 1, [1])), Stamped(2, Proposal("x", "2.*", "", 1, []));
            MergedProposal(MergedProposal(map[], 0, older), 0, newer) !=
            MergedProposal(MergedProposal(map[], 0, newer), 0, older)
  {
    var none: ProposalTable := map[];
    SwapIsHarmlessExactly(none, 0, Stamped(1, Proposal("x", "*", "", 1, [1])), Stamped(2, Proposal("x", "2.*", "", 1, [])));
  }

  /** What a proposal bans. */
  function Scope(p: Proposal): (string, string) {
    (p.appId, p.versionRange)
  }

  /** Merging a record for a known ban changes what it bans exactly when the record is signed, not older
      than the stored one, and bans something else. */
  lemma MergeChangesScopeExactly(t: ProposalTable, id: BanId, p: Stamped<Proposal>)
    requires id in t
    ensures id in MergedProposal(t, id, p)
    ensures Scope(MergedProposal(t, id, p)[id].body) != Scope(t[id].body) <==>
            Overwrites(t, id, p) && Scope(p.body) != Scope(t[id].body)
  {
  }

  /** A stored ban that hub `local` agreed to covers this app version. */
  predicate BansVersion(b: Bans, local: NodeId, id: BanId, app: string, version: string) {
    && id in b.proposals && b.proposals[id].body.appId == app
    && VersionInRange(version, b.proposals[id].body.versionRange)
    && (id, local) in b.verdicts && b.verdicts[(id, local)].body
  }

  predicate Enforced(b: Bans, local: NodeId, app: string, version: string) {
    exists id :: id in b.proposals && BansVersion(b, local, id, app, version)
  }

  /** A hub enforces a ban on an app version exactly if some ban on that app covers the version, as ranges are
      read, and the hub's own verdict on it is Agree. */
  lemma EnforcedByOwnAgree(b: Bans, local: NodeId, app: string, version: string)
    ensures Enforced(b, local, app, version) <==>
            exists id :: id in b.proposals && b.proposals[id].body.appId == app
              && Covers(b.proposals[id].body.versionRange, version)
              && (id, local) in b.verdicts && b.verdicts[(id, local)].body
  {
    forall id | id in b.proposals
      ensures VersionInRange(version, b.proposals[id].body.versionRange) <==> Covers(b.proposals[id].body.versionRange, version)
    {
      CoversExactly(b.proposals[id].body.versionRange, version);
    }
  }

  class BanStore {
    var bans: Bans

    constructor ()
      ensures bans == NO_BANS
    {
      bans := NO_BANS;
    }

    method Propose(id: BanId, p: Stamped<Proposal>) returns (ok: bool)
      modifies this
      ensures ok <==> Proposed(old(bans).proposals, id, p).Some?
      ensures bans == if ok then old(bans).(proposals := Proposed(old(bans).proposals, id, p).value) else old(bans)
      ensures ok <==> p.body.appId != "" && id !in old(bans).proposals
      ensures bans.verdicts == old(bans).verdicts && bans.proposals - {id} == old(bans).proposals - {id}
      ensures ok ==> id in bans.proposals && bans.proposals[id] ==
                     p.(body := p.body.(versionRange := if p.body.versionRange == "" then "*" else p.body.versionRange))
    {
      if p.body.appId == "" {
        return false;
      }
      var row := p;
      if row.body.versionRange == "" {
        row := row.(body := row.body.(versionRange := "*"));
      }
      if id in bans.proposals {
        return false;
      }
      bans := bans.(proposals := bans.proposals[id := row]);
      return true;
    }

    method UpdateSignature(id: BanId, signature: seq<int>)
      modifies this
      ensures bans == old(bans).(proposals := Signed(old(bans).proposals, id, signature))
      ensures bans.proposals.Keys == old(bans).proposals.Keys && bans.verdicts == old(bans).verdicts
      ensures forall x :: x in bans.proposals ==>
                var row, was := bans.proposals[x], old(bans).proposals[x];
                row == if x == id then was.(body := was.body.(signature := signature)) else was
    {
      if id in bans.proposals {
        var row := bans.proposals[id];
        bans := bans.(proposals := bans.proposals[id := row.(body := row.body.(signature := signature))]);
      }
    }

    method SetVerdict(id: BanId, hub: NodeId, v: Stamped<bool>) returns (ok: bool)
      modifies this
      ensures ok <==> id in old(bans).proposals
      ensures bans == if ok then old(bans).(verdicts := old(bans).verdicts[(id, hub) := v]) else old(bans)
    {
      if id !in bans.proposals {
        return false;
      }
      bans := bans.(verdicts := bans.verdicts[(id, hub) := v]);
      return true;
    }

    method VerdictForHub(id: BanId, hub: NodeId) returns (v: Option<Stamped<bool>>)
      ensures v == if (id, hub) in bans.verdicts then Some(bans.verdicts[(id, hub)]) else None
    {
      if (id, hub) in bans.verdicts {
        return Some(bans.verdicts[(id, hub)]);
      }
      return None;
    }

    /** The rows of ban_list, each once, newest first. */
    method ListProposals() returns (recs: seq<Record<BanId, Proposal>>)
      ensures Lists(recs, bans.proposals) && NewestFirst(recs) && DistinctKeys(recs)
    {
      recs := [];
      var rest := bans.proposals.Keys;
      while rest != {}
        invariant rest <= bans.proposals.Keys
        invariant forall r :: r in recs <==> r.key in bans.proposals.Keys - rest && bans.proposals[r.key] == r.row
        invariant NewestFirst(recs) && DistinctKeys(recs)
        decreases rest
      {
        var id :| id in rest;
        InsertKeeps(recs, Record(id, bans.proposals[id]));
        forall r { InsertMember(recs, Record(id, bans.proposals[id]), r); }
        recs := InsertNewest(recs, Record(id, bans.proposals[id]));
        rest := rest - {id};
      }
    }

    /** Enforcement is decided by this hub's own verdict alone. */
    method IsLocallyEnforced(local: NodeId, app: string, version: string) returns (enforced: bool)
      ensures enforced <==> Enforced(bans, local, app, version)
      ensures enforced <==>
              exists id :: id in bans.proposals && bans.proposals[id].body.appId == app
                && Covers(bans.proposals[id].body.versionRange, version)
                && (id, local) in bans.verdicts && bans.verdicts[(id, local)].body
    {
      EnforcedByOwnAgree(bans, local, app, version);
      var recs := ListProposals();
      for k := 0 to |recs|
        invariant forall i :: 0 <= i < k ==> !BansVersion(bans, local, recs[i].key, app, version)
      {
        assert recs[k] in recs;
        var p := recs[k].row.body;
        if p.appId != app || !VersionInRange(version, p.versionRange) {
          continue;
        }
        var v := VerdictForHub(recs[k].key, local);
        if v.Some? && v.value.body {
          assert BansVersion(bans, local, recs[k].key, app, version);
          return true;
        }
      }
      forall id | id in bans.proposals ensures !BansVersion(bans, local, id, app, version) {
        assert Record(id, bans.proposals[id]) in recs;
      }
      return false;
    }

    /** Reports a change even where the insert is refused, and none where the update is; `ok` tells. */
    method MergeGossipProposal(id: BanId, p: Stamped<Proposal>) returns (changed: bool, ok: bool)
      modifies this
      ensures ok <==> if id !in old(bans).proposals then p.body.appId != ""
                      else p.at < old(bans).proposals[id].at || p.body.signature != []
      ensures bans == old(bans).(proposals := MergedProposal(old(bans).proposals, id, p))
      ensures changed <==> id !in old(bans).proposals || Overwrites(old(bans).proposals, id, p)
    {
      if id !in bans.proposals {
        ok := Propose(id, p);
        return true, ok;
      }
      if p.at < bans.proposals[id].at {
        return false, true;
      }
      if p.body.signature == [] {
        return false, false;
      }
      bans := bans.(proposals := bans.proposals[id := p]);
      return true, true;
    }

    method MergeGossipVerdict(id: BanId, hub: NodeId, v: Stamped<bool>) returns (changed: bool, ok: bool)
      modifies this
      ensures !ok <==> changed && id !in old(bans).proposals
      ensures bans == old(bans).(verdicts := MergedVerdict(old(bans), id, hub, v))
      ensures changed <==> (id, hub) !in old(bans).verdicts || v.at > old(bans).verdicts[(id, hub)].at
    {
      if (id, hub) in bans.verdicts && v.at <= bans.verdicts[(id, hub)].at {
        return false, true;
      }
      ok := SetVerdict(id, hub, v);
      return true, ok;
    }
  }
}
