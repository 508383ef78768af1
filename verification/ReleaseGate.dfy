/** What a tag has to pass (scripts/release_readiness.py, build_gate), and the
    packages a gate run builds (scripts/release.py, gate_packages). */
module ReleaseGate {
  import opened Wrappers
  import opened ReleaseWorld
  import opened ReleasePlan
  import ReleaseRows

  datatype Gate =
    | Blocked
    | Gate(down: seq<Row>, up: seq<Row>, combinations: seq<Combination>, below: map<Stage, Published>,
      verify: Option<Id>)

  /** A tag names one release; drafts may promise the same one. */
  ghost predicate OneReleaseEach(w: World) {
    DistinctTags(w.releases)
  }

  ghost predicate DistinctTags(releases: seq<Release>) {
    forall i, k :: 0 <= i < k < |releases| && !releases[i].draft && !releases[k].draft ==>
      releases[i].tag != releases[k].tag
  }

  ghost predicate DistinctVersions(entries: seq<Published>) {
    forall i, k :: 0 <= i < k < |entries| ==> entries[i].version != entries[k].version
  }

  lemma DistinctBehind(e: Published, entries: seq<Published>)
    requires DistinctVersions(entries) && forall x :: x in entries ==> x.version != e.version
    ensures DistinctVersions([e] + entries)
  {
    var all := [e] + entries;
    assert forall i :: 0 < i < |all| ==> all[i] == entries[i - 1] && all[i] in entries;
  }

  lemma {:induction false} InsertDistinct(pep: Pep, e: Published, entries: seq<Published>)
    requires DistinctVersions(entries) && forall x :: x in entries ==> x.version != e.version
    ensures DistinctVersions(Insert(pep, e, entries))
  {
    if entries == [] || pep.rank(e.version) <= pep.rank(entries[0].version) {
      DistinctBehind(e, entries);
    } else {
      assert DistinctVersions(entries[1..]) && forall x :: x in entries[1..] ==> x.version != entries[0].version;
      InsertDistinct(pep, e, entries[1..]);
      var rest := Insert(pep, e, entries[1..]);
      hide DistinctVersions;
      forall x | x in rest
        ensures x.version != entries[0].version
      {
        Inserted(pep, e, entries[1..], x);
      }
      DistinctBehind(entries[0], rest);
    }
  }

  lemma TagOf(pep: Pep, s: Stage, r: Release)
    requires Publishes(pep, s, r)
    ensures !r.draft && r.tag == Prefix(s) + r.tag[|Prefix(s)|..]
  {
  }

  /** Where an entry of a line comes from. */
  lemma {:induction false} Origin(pep: Pep, s: Stage, releases: seq<Release>, e: Published) returns (i: nat)
    requires e in Candidates(pep, s, releases)
    ensures i < |releases| && !releases[i].draft && releases[i].tag == Prefix(s) + e.version
  {
    hide Insert;
    var r, rest := releases[0], Candidates(pep, s, releases[1..]);
    if Publishes(pep, s, r) && r.meta.Some? {
      var one := Published(r.tag[|Prefix(s)|..], r.tag, r.meta.value);
      TagOf(pep, s, r);
      hide Publishes;
      hide Prefix;
      Inserted(pep, one, rest, e);
      if e == one {
        return 0;
      }
    }
    i := Origin(pep, s, releases[1..], e);
    i := i + 1;
  }

  /** So a published version is one release. */
  lemma {:induction false} VersionsDiffer(pep: Pep, s: Stage, releases: seq<Release>)
    requires DistinctTags(releases)
    ensures DistinctVersions(Candidates(pep, s, releases))
  {
    if releases != [] {
      VersionsDiffer(pep, s, releases[1..]);
      var r, rest := releases[0], Candidates(pep, s, releases[1..]);
      if Publishes(pep, s, r) && r.meta.Some? {
        var e := Published(r.tag[|Prefix(s)|..], r.tag, r.meta.value);
        forall x | x in rest
          ensures x.version != e.version
        {
          var i := Origin(pep, s, releases[1..], x);
          assert releases[1..][i] == releases[i + 1];
        }
        InsertDistinct(pep, e, rest);
      }
    }
  }

  // ---- the rows of a tag ---------------------------------------------------------------

  lemma {:induction false} ByVersionFinds(entries: seq<Published>, k: nat)
    requires k < |entries| && DistinctVersions(entries)
    ensures ByVersion(entries, entries[k].version) == Some(entries[k])
  {
    var n := |entries| - 1;
    if k < n {
      assert entries[..n][k] == entries[k];
      ByVersionFinds(entries[..n], k);
    }
  }

  /** A published piece requires what its release says. */
  lemma RequiredOf(w: World, s: Stage, e: Published)
    requires OneReleaseEach(w) && Below(s).Some? && e in w.Entries(s)
    ensures RequiredBelow(w, s, Of(e)) == ConstraintOn(e.needs, Family(Below(s).value))
  {
    VersionsDiffer(w.pep, s, w.releases);
    var k :| 0 <= k < |w.Entries(s)| && w.Entries(s)[k] == e;
    ByVersionFinds(w.Entries(s), k);
  }

  lemma LastEnd(entries: seq<Published>)
    requires entries != []
    ensures var pieces := Pieces(Ends(entries)); pieces != [] && pieces[|pieces| - 1] == Of(entries[|entries| - 1])
  {
  }

  lemma NewestHolds(pep: Pep, releases: seq<Release>, needs: Requires, lower: Stage)
    ensures var newest := NewestBelow(pep, releases, needs, lower);
            newest.Some? ==> newest.value in Candidates(pep, lower, releases)
                             && Accepts(pep, ConstraintOn(needs, Family(lower)), newest.value.version)
  {
    var all := Satisfying(pep, Candidates(pep, lower, releases), ConstraintOn(needs, Family(lower)));
    if all != [] {
      assert all[|all| - 1] in all;
    }
  }

  lemma SdkSubjects(w: World)
    ensures var newest := NewestBelow(w.pep, w.releases, w.own(Sdk), Workspace);
            var subjects := DownSubjects(w, Sdk, true);
            newest.Some? ==> subjects != [] && subjects[|subjects| - 1] == Of(newest.value)
  {
    hide Candidates;
    hide Satisfying;
    var all := Satisfying(w.pep, w.Entries(Workspace), ConstraintOn(w.own(Sdk), Family(Workspace)));
    if all != [] {
      LastEnd(all);
    }
    hide Ends;
    hide Pieces;
    hide ConstraintOn;
  }

  lemma SdkTriple(w: World, workspace: Published, tools: Published)
    requires OneReleaseEach(w) && NewestBelow(w.pep, w.releases, w.own(Sdk), Workspace) == Some(workspace)
    requires NewestBelow(w.pep, w.releases, workspace.needs, Tools) == Some(tools)
    ensures var t := Triple(Here(w, Sdk), Of(workspace), Of(tools));
            DownTriple(w, Sdk, Of(workspace), true) == Some(t) && Consistent(w, t)
  {
    hide OneReleaseEach;
    NewestHolds(w.pep, w.releases, w.own(Sdk), Workspace);
    NewestHolds(w.pep, w.releases, workspace.needs, Tools);
    RequiredOf(w, Workspace, workspace);
    hide Candidates;
    hide Satisfying;
    hide ConstraintOn;
    hide Accepts;
    hide ByVersion;
  }

  /** The last row of an SDK's own direction asks for the chain a user resolves. */
  lemma SdkLastRow(w: World)
    requires OneReleaseEach(w) && Chain(w.pep, w.releases, Sdk, w.own(Sdk)).Some?
    ensures var chain := Chain(w.pep, w.releases, Sdk, w.own(Sdk)).value;
            var subjects := DownSubjects(w, Sdk, true);
            && Workspace in chain && Tools in chain && subjects != []
            && var t := Triple(Here(w, Sdk), Of(chain[Workspace]), Of(chain[Tools]));
               DownTriple(w, Sdk, subjects[|subjects| - 1], true) == Some(t) && Consistent(w, t)
  {
    hide Chain;
    hide DownSubjects;
    hide DownTriple;
    hide NewestBelow;
    hide OneReleaseEach;
    hide Consistent;
    ChainOfSdk(w.pep, w.releases, w.own(Sdk));
    var workspace := NewestBelow(w.pep, w.releases, w.own(Sdk), Workspace).value;
    var tools := NewestBelow(w.pep, w.releases, workspace.needs, Tools).value;
    SdkSubjects(w);
    SdkTriple(w, workspace, tools);
  }

  lemma WorkspaceSubjects(w: World)
    ensures var sdk := NewestAccepting(w.pep, w.Entries(Sdk), Family(Workspace), w.declared(Workspace));
            var above := UpSubjects(w, Workspace, true);
            if sdk.None? then above == [] else above != [] && above[|above| - 1] == Of(sdk.value)
  {
    hide Candidates;
    hide Accepting;
    hide NewestAccepting;
    hide ConstraintOn;
    hide Accepts;
    hide Pieces;
    hide Ends;
    var accepting := Accepting(w.pep, w.Entries(Sdk), Family(Workspace), w.declared(Workspace));
    NewestIsLast(w.pep, w.Entries(Sdk), Family(Workspace), w.declared(Workspace));
    assert UpSubjects(w, Workspace, true) == Pieces(Ends(accepting));
    hide UpSubjects;
    EndsOf(accepting);
  }

  lemma EndsOf(entries: seq<Published>)
    ensures var pieces := Pieces(Ends(entries));
            if entries == [] then pieces == [] else pieces != [] && pieces[|pieces| - 1] == Of(entries[|entries| - 1])
  {
    if entries != [] {
      LastEnd(entries);
    }
  }

  lemma WorkspaceTriple(w: World, sdk: Published, tools: Published)
    requires OneReleaseEach(w) && NewestBelow(w.pep, w.releases, w.own(Workspace), Tools) == Some(tools)
    requires NewestAccepting(w.pep, w.Entries(Sdk), Family(Workspace), w.declared(Workspace)) == Some(sdk)
    ensures var t := Triple(Of(sdk), Here(w, Workspace), Of(tools));
            UpTriple(w, Workspace, Of(sdk), true) == Some(t) && Consistent(w, t)
  {
    hide OneReleaseEach;
    NewestHolds(w.pep, w.releases, w.own(Workspace), Tools);
    NewestIsThere(w.pep, w.Entries(Sdk), Family(Workspace), w.declared(Workspace));
    RequiredOf(w, Sdk, sdk);
    hide Candidates;
    hide Satisfying;
    hide ConstraintOn;
    hide Accepts;
    hide ByVersion;
    hide NewestAccepting;
  }

  /** A workspace is tried exactly where a published SDK takes it, and the last
      row above asks for the newest such SDK over the tools a user resolves. */
  lemma WorkspaceRows(w: World)
    requires OneReleaseEach(w) && Chain(w.pep, w.releases, Workspace, w.own(Workspace)).Some?
    ensures var chain := Chain(w.pep, w.releases, Workspace, w.own(Workspace)).value;
            var sdk := NewestAccepting(w.pep, w.Entries(Sdk), Family(Workspace), w.declared(Workspace));
            var above := UpSubjects(w, Workspace, true);
            && Tools in chain
            && (sdk.None? ==> above == [] && forall below :: DownTriple(w, Workspace, below, true) == None)
            && (sdk.Some? ==>
                  && above != []
                  && var t := Triple(Of(sdk.value), Here(w, Workspace), Of(chain[Tools]));
                     UpTriple(w, Workspace, above[|above| - 1], true) == Some(t) && Consistent(w, t))
  {
    hide Chain;
    hide UpSubjects;
    hide UpTriple;
    hide NewestBelow;
    hide OneReleaseEach;
    hide Consistent;
    hide Candidates;
    hide NewestAccepting;
    ChainOfWorkspace(w.pep, w.releases, w.own(Workspace));
    WorkspaceSubjects(w);
    var sdk := NewestAccepting(w.pep, w.Entries(Sdk), Family(Workspace), w.declared(Workspace));
    if sdk.Some? {
      WorkspaceTriple(w, sdk.value, NewestBelow(w.pep, w.releases, w.own(Workspace), Tools).value);
    }
  }

  // ---- the combinations a tag wants --------------------------------------------------------

  function IndexOfId(combinations: seq<Combination>, id: Id): (i: nat)
    requires exists c :: c in combinations && c.id == id
    ensures i < |combinations| && combinations[i].id == id
  {
    if combinations[0].id == id then 0 else 1 + IndexOfId(combinations[1..], id)
  }

  predicate Names(combinations: seq<Combination>, id: Id) {
    exists c :: c in combinations && c.id == id
  }

  /** The combinations the rows name, each once, in their order. */
  method Wanted(combinations: seq<Combination>, rows: seq<Row>) returns (wanted: seq<Combination>)
    requires forall r :: r in rows && r.combination.Some? ==> Names(combinations, r.combination.value)
    ensures forall c :: c in wanted ==> c in combinations && exists r :: r in rows && r.combination == Some(c.id)
    ensures forall r :: r in rows && r.combination.Some? ==> Names(wanted, r.combination.value)
    ensures wanted == [] <==> forall r :: r in rows ==> r.combination.None?
    ensures forall i, k :: 0 <= i < k < |wanted| ==> wanted[i] != wanted[k]
  {
    wanted := [];
    for n := 0 to |rows|
      invariant forall c :: c in wanted ==> c in combinations && exists r :: r in rows && r.combination == Some(c.id)
      invariant forall i :: 0 <= i < n && rows[i].combination.Some? ==> Names(wanted, rows[i].combination.value)
      invariant wanted == [] <==> forall i :: 0 <= i < n ==> rows[i].combination.None?
      invariant forall i, k :: 0 <= i < k < |wanted| ==> wanted[i] != wanted[k]
    {
      var row := rows[n];
      if row.combination.Some? {
        assert Names(combinations, row.combination.value);
        var c := combinations[IndexOfId(combinations, row.combination.value)];
        ghost var before := wanted;
        if c !in wanted {
          wanted := wanted + [c];
        }
        forall i | 0 <= i < n && rows[i].combination.Some?
          ensures Names(wanted, rows[i].combination.value)
        {
          assert Names(before, rows[i].combination.value);
          var d :| d in before && d.id == rows[i].combination.value;
          assert d in wanted;
        }
      }
    }
  }

  lemma RowCombination(w: World, found: seq<Combination>, row: Row, t: Triple, c: Combination)
    requires WellFormed(w, true, found) && RowShows(found, row, Some(t)) && c in found && row.combination == Some(c.id)
    ensures c.triple == t && row.needed == c.consistent == Consistent(w, t)
  {
    hide TripleOk;
    hide Consistent;
    var i :| 0 <= i < |found| && found[i].triple == t && row.combination == Some(found[i].id)
      && row.needed == found[i].consistent;
    var k :| 0 <= k < |found| && found[k] == c;
    OneToAnId(w, found, i, k);
  }

  lemma OneToAnId(w: World, found: seq<Combination>, i: nat, k: nat)
    requires WellFormed(w, true, found) && i < |found| && k < |found|
    ensures found[i].id == found[k].id ==> i == k
  {
    if i < k {
      IdsAreDistinct(w, true, found, i, k);
    } else if k < i {
      IdsAreDistinct(w, true, found, k, i);
    }
  }

  /** In its own rows the tagged line is this commit's. */
  lemma OwnPiece(w: World, s: Stage, piece: Piece)
    ensures Below(s).Some? && DownTriple(w, s, piece, true).Some? ==>
        DownTriple(w, s, piece, true).value.At(s) == Here(w, s)
    ensures AboveOf(s).Some? && UpTriple(w, s, piece, true).Some? ==>
        UpTriple(w, s, piece, true).value.At(s) == Here(w, s)
  {
  }

  function DownOf(plan: Plan, s: Stage): seq<Row> {
    if s in plan.down then plan.down[s] else []
  }

  function UpOf(plan: Plan, s: Stage): seq<Row> {
    if s in plan.up then plan.up[s] else []
  }

  /** What every row of the tagged line's half of the catalogue shows. */
  lemma HalfOfPlan(w: World, s: Stage, plan: Plan)
    requires PlanOk(w, true, plan)
    ensures forall r :: r in DownOf(plan, s) + UpOf(plan, s) ==>
              exists t: Option<Triple> :: RowShows(plan.combinations, r, t) && (t.Some? ==> t.value.At(s) == Here(w, s))
    ensures Below(s).Some? ==> DownRows(w, s, true, plan.combinations, DownOf(plan, s))
    ensures AboveOf(s).Some? ==> UpRows(w, s, true, plan.combinations, UpOf(plan, s))
    ensures Below(s).None? ==> DownOf(plan, s) == []
    ensures AboveOf(s).None? ==> UpOf(plan, s) == []
  {
    hide DownSubjects;
    hide UpSubjects;
    hide DownTriple;
    hide UpTriple;
    hide RowShows;
    hide WellFormed;
    hide Marked;
    forall r | r in DownOf(plan, s)
      ensures exists t: Option<Triple> :: RowShows(plan.combinations, r, t) && (t.Some? ==> t.value.At(s) == Here(w, s))
    {
      var i :| 0 <= i < |plan.down[s]| && plan.down[s][i] == r;
      OwnPiece(w, s, DownSubjects(w, s, true)[i]);
      assert RowShows(plan.combinations, r, DownTriple(w, s, DownSubjects(w, s, true)[i], true));
    }
    forall r | r in UpOf(plan, s)
      ensures exists t: Option<Triple> :: RowShows(plan.combinations, r, t) && (t.Some? ==> t.value.At(s) == Here(w, s))
    {
      var i :| 0 <= i < |plan.up[s]| && plan.up[s][i] == r;
      OwnPiece(w, s, UpSubjects(w, s, true)[i]);
      assert RowShows(plan.combinations, r, UpTriple(w, s, UpSubjects(w, s, true)[i], true));
    }
  }

  /** A wanted combination takes the tagged line, and only it, from this commit. */
  lemma WantedTakesOwn(w: World, s: Stage, plan: Plan, c: Combination)
    requires PlanOk(w, true, plan) && c in plan.combinations
    requires exists r :: r in DownOf(plan, s) + UpOf(plan, s) && r.combination == Some(c.id)
    ensures c.triple.At(s) == Here(w, s) && c.triple.Checkouts() == 1 && c.id != LineStart
    ensures c.consistent == Consistent(w, c.triple)
    ensures forall x: Stage :: x != s ==> c.triple.At(x).source.FromRelease?
  {
    hide Consistent;
    hide WellFormed;
    hide RowShows;
    hide TripleOk;
    HalfOfPlan(w, s, plan);
    var r :| r in DownOf(plan, s) + UpOf(plan, s) && r.combination == Some(c.id);
    var t: Option<Triple> :| RowShows(plan.combinations, r, t) && (t.Some? ==> t.value.At(s) == Here(w, s));
    NamedIsShown(plan.combinations, r, t);
    RowCombination(w, plan.combinations, r, t.value, c);
    FoundIsOk(w, plan.combinations, c);
    OnlyOne(w, c.triple, s);
  }

  lemma NamedIsShown(found: seq<Combination>, row: Row, t: Option<Triple>)
    requires RowShows(found, row, t) && row.combination.Some?
    ensures t.Some?
  {
  }

  lemma FoundIsOk(w: World, found: seq<Combination>, c: Combination)
    requires WellFormed(w, true, found) && c in found
    ensures TripleOk(w, c.triple) && c.triple.Checkouts() == 1 && c.id != LineStart
        && c.consistent == Consistent(w, c.triple)
  {
    var k :| 0 <= k < |found| && found[k] == c;
  }

  lemma OnlyOne(w: World, t: Triple, s: Stage)
    requires TripleOk(w, t) && t.Checkouts() == 1 && t.At(s) == Here(w, s)
    ensures forall x: Stage :: x != s ==> t.At(x).source.FromRelease?
  {
    forall x: Stage | x != s
      ensures t.At(x).source.FromRelease?
    {
      match s {
        case Sdk => assert x == Workspace || x == Tools;
        case Workspace => assert x == Sdk || x == Tools;
        case Tools => assert x == Sdk || x == Workspace;
      }
    }
  }

  // ---- where nothing published sits on top ---------------------------------------------------

  /** Up from `lower`: published where one takes it, else this commit's. */
  function AboveChain(w: World, lower: Stage, version: string): map<Stage, Piece>
    decreases match lower case Sdk => 0 case Workspace => 1 case Tools => 2
  {
    if AboveOf(lower).None? then map[]
    else
      var upper := AboveOf(lower).value;
      var newest := NewestAccepting(w.pep, w.Entries(upper), Family(lower), version);
      var piece := if newest.Some? then Of(newest.value) else Here(w, upper);
      map[upper := piece] + AboveChain(w, upper, piece.version)
  }

  method ResolveAbove(w: World, s: Stage) returns (pieces: map<Stage, Piece>)
    ensures pieces == AboveChain(w, s, w.declared(s))
  {
    hide AboveChain;
    pieces := map[];
    var lower, version := s, w.declared(s);
    assert forall rest: map<Stage, Piece> :: map[] + rest == rest;
    while AboveOf(lower).Some?
      invariant AboveChain(w, s, w.declared(s)) == pieces + AboveChain(w, lower, version)
      decreases match lower case Sdk => 0 case Workspace => 1 case Tools => 2
    {
      var upper := AboveOf(lower).value;
      var newest := NewestAccepting(w.pep, w.Entries(upper), Family(lower), version);
      var piece := if newest.Some? then Of(newest.value) else Here(w, upper);
      OneUp(w, lower, version);
      ghost var rest := AboveChain(w, upper, piece.version);
      assert pieces + (map[upper := piece] + rest) == pieces[upper := piece] + rest;
      pieces := pieces[upper := piece];
      lower, version := upper, piece.version;
    }
    OneUp(w, lower, version);
    assert pieces + map[] == pieces;
  }

  lemma OneUp(w: World, lower: Stage, version: string)
    ensures AboveChain(w, lower, version)
            == if AboveOf(lower).None? then map[]
               else
                 var upper := AboveOf(lower).value;
                 var newest := NewestAccepting(w.pep, w.Entries(upper), Family(lower), version);
                 var piece := if newest.Some? then Of(newest.value) else Here(w, upper);
                 map[upper := piece] + AboveChain(w, upper, piece.version)
  {
    hide NewestAccepting;
  }

  function Around(w: World, s: Stage, below: map<Stage, Published>, above: map<Stage, Piece>, x: Stage): Piece {
    if x == s then Piece(Released, w.declared(s), "")
    else if x in above then above[x]
    else if x in below then Of(below[x])
    else Here(w, x)
  }

  /** _chain: the one combination a release is tried in when nothing published can. */
  method ChainAround(w: World, s: Stage, below: map<Stage, Published>) returns (c: Combination, row: Row)
    ensures c.id == LineStart && c.consistent == Consistent(w, c.triple) && !c.compare
    ensures row.combination == Some(LineStart) && row.needed == c.consistent
    ensures var above := AboveChain(w, s, w.declared(s));
            forall x: Stage :: c.triple.At(x) == Around(w, s, below, above, x)
  {
    hide Consistent;
    hide AboveChain;
    var above := ResolveAbove(w, s);
    var t := Triple(Around(w, s, below, above, Sdk), Around(w, s, below, above, Workspace),
      Around(w, s, below, above, Tools));
    forall x: Stage
      ensures t.At(x) == Around(w, s, below, above, x)
    {
      match x case Sdk => case Workspace => case Tools =>
    }
    c := Combination(LineStart, t, Consistent(w, t), false);
    row := Row(if AboveOf(s).Some? then Here(w, AboveOf(s).value) else t.At(s), Some(LineStart), c.consistent);
  }

  // ---- the gate ------------------------------------------------------------------------------

  function With(t: Triple, s: Stage, piece: Piece): Triple {
    match s case Sdk => t.(sdk := piece) case Workspace => t.(workspace := piece) case Tools => t.(tools := piece)
  }

  /** The tagged line's package is the one being released. */
  function Cutting(c: Combination, s: Stage): Combination {
    var piece := c.triple.At(s);
    if piece.source.Checkout? then c.(triple := With(c.triple, s, piece.(source := Released))) else c
  }

  function CutAll(wanted: seq<Combination>, s: Stage): (r: seq<Combination>)
    ensures |r| == |wanted| && forall i :: 0 <= i < |r| ==> r[i] == Cutting(wanted[i], s)
  {
    seq(|wanted|, i requires 0 <= i < |wanted| => Cutting(wanted[i], s))
  }

  function LastNamed(rows: seq<Row>): Option<Id> {
    if rows == [] then None
    else if rows[|rows| - 1].combination.Some? then rows[|rows| - 1].combination
    else LastNamed(rows[..|rows| - 1])
  }

  /** _verify: the last row of the direction that decides the line. */
  function VerifyChoice(s: Stage, down: seq<Row>, up: seq<Row>, combinations: seq<Combination>): Option<Id> {
    var last := LastNamed(if s.Sdk? then down else up);
    if last.Some? then last
    else if combinations != [] then Some(combinations[|combinations| - 1].id) else None
  }

  /** A combination of published neighbours around the release. */
  ghost predicate Tried(w: World, s: Stage, c: Combination) {
    && c.id != LineStart && c.triple.At(s) == Piece(Released, w.declared(s), "")
    && c.consistent == Consistent(w, c.triple)
    && forall x: Stage :: x != s ==> c.triple.At(x).source.FromRelease?
  }

  /** The fallback: one combination, this commit's above where nothing published is. */
  ghost predicate Started(w: World, s: Stage, below: map<Stage, Published>, c: Combination) {
    && c.id == LineStart && c.consistent == Consistent(w, c.triple)
    && forall x: Stage :: c.triple.At(x) == Around(w, s, below, AboveChain(w, s, w.declared(s)), x)
  }

  ghost predicate LineStarts(gate: Gate)
    requires gate.Gate?
  {
    Names(gate.combinations, LineStart)
  }

  /** The combination a row of the gate is about. */
  ghost predicate Decides(gate: Gate, row: Row, t: Triple)
    requires gate.Gate?
  {
    row.needed && exists c :: c in gate.combinations && row.combination == Some(c.id) && c.triple == t && c.consistent
  }

  lemma CutIsTried(w: World, s: Stage, plan: Plan, wanted: seq<Combination>)
    requires PlanOk(w, true, plan)
    requires forall c :: c in wanted ==> c in plan.combinations
    requires forall c :: c in wanted ==> exists r :: r in DownOf(plan, s) + UpOf(plan, s) && r.combination == Some(c.id)
    ensures forall c :: c in CutAll(wanted, s) ==> Tried(w, s, c)
    ensures forall c :: c in wanted ==> c.triple.At(s) == Here(w, s)
  {
    hide PlanOk;
    hide Consistent;
    forall c | c in wanted
      ensures Tried(w, s, Cutting(c, s)) && c.triple.At(s) == Here(w, s)
    {
      WantedTakesOwn(w, s, plan, c);
      CutConsistent(w, c.triple, s);
    }
  }

  lemma CutConsistent(w: World, t: Triple, s: Stage)
    requires t.At(s) == Here(w, s)
    ensures var cut := With(t, s, Piece(Released, w.declared(s), ""));
            Consistent(w, cut) == Consistent(w, t) && cut.At(s) == Piece(Released, w.declared(s), "")
            && forall x: Stage :: x != s ==> cut.At(x) == t.At(x)
  {
    match s case Sdk => case Workspace => case Tools =>
  }

  /** A row of the plan with the triple it asks for, after the cut. */
  lemma CutDecides(w: World, s: Stage, plan: Plan, wanted: seq<Combination>, gate: Gate, row: Row, t: Triple)
    requires PlanOk(w, true, plan) && RowShows(plan.combinations, row, Some(t)) && Consistent(w, t)
        && t.At(s) == Here(w, s)
    requires forall c :: c in wanted ==> c in plan.combinations
    requires row.combination.Some? && Names(wanted, row.combination.value)
    requires gate.Gate? && gate.combinations == CutAll(wanted, s)
    ensures Decides(gate, row, With(t, s, Piece(Released, w.declared(s), "")))
  {
    hide Consistent;
    hide WellFormed;
    hide Catalogued;
    hide Marked;
    hide RowShows;
    var c :| c in wanted && c.id == row.combination.value;
    RowCombination(w, plan.combinations, row, t, c);
    var k :| 0 <= k < |wanted| && wanted[k] == c;
    assert gate.combinations[k] == Cutting(c, s) && gate.combinations[k] in gate.combinations;
  }

  /** An SDK gate: its last row below is the required combination over the very
      chain the gate resolved, and it is what the release is verified in. */
  ghost predicate SdkDecided(w: World, gate: Gate)
    requires gate.Gate?
  {
    && !LineStarts(gate) && Workspace in gate.below && Tools in gate.below && gate.down != []
    && Decides(gate, gate.down[|gate.down| - 1],
               Triple(Piece(Released, w.declared(Sdk), ""), Of(gate.below[Workspace]), Of(gate.below[Tools])))
    && gate.verify == gate.down[|gate.down| - 1].combination
  }

  /** A workspace gate: a line start exactly where no published SDK takes the
      declared version; else its last row above is the required combination under
      the newest such SDK, and it is what the release is verified in. */
  ghost predicate WorkspaceDecided(w: World, gate: Gate)
    requires gate.Gate?
  {
    var sdk := NewestAccepting(w.pep, w.Entries(Sdk), Family(Workspace), w.declared(Workspace));
    && Tools in gate.below && (LineStarts(gate) <==> sdk.None?)
    && (sdk.Some? ==>
          && gate.up != []
          && Decides(gate, gate.up[|gate.up| - 1],
                     Triple(Of(sdk.value), Piece(Released, w.declared(Workspace), ""), Of(gate.below[Tools])))
          && gate.verify == gate.up[|gate.up| - 1].combination)
  }

  /** A gate's rows, by the published releases alone: the line's own neighbours at the
      ends of their range, and every combination the release over or under them. */
  ghost predicate TriedRows(w: World, s: Stage, gate: Gate)
    requires gate.Gate?
  {
    && (Below(s).Some? ==>
          && ReleaseRows.Spans(w, Below(s).value, ReleaseRows.Range(w, s), false, gate.down)
          && forall row :: row in gate.down ==> ReleaseRows.BuildsDown(w, true, Released, gate.combinations, s, row))
    && (AboveOf(s).Some? ==>
          && ReleaseRows.Spans(w, AboveOf(s).value, ReleaseRows.Takers(w, s), false, gate.up)
          && forall row :: row in gate.up ==> ReleaseRows.BuildsUp(w, true, Released, gate.combinations, s, row))
    && (Below(s).None? ==> gate.down == []) && (AboveOf(s).None? ==> gate.up == [])
  }

  /** A named combination, after the cut. */
  lemma CutNamed(w: World, s: Stage, neighbour: Stage, plan: Plan, wanted: seq<Combination>, row: Row, c: Combination)
    requires s != neighbour && WellFormed(w, true, plan.combinations)
    requires forall x :: x in wanted ==> x in plan.combinations
    requires ReleaseRows.IsTheRowOf(w, Checkout, plan.combinations, s, neighbour, row, c)
    requires Names(wanted, row.combination.value)
    ensures ReleaseRows.IsTheRowOf(w, Released, CutAll(wanted, s), s, neighbour, row, Cutting(c, s))
    ensures forall x: Stage :: x != s ==> Cutting(c, s).triple.At(x) == c.triple.At(x)
  {
    hide ReleaseRows.HoldsTogether;
    var x :| x in wanted && x.id == row.combination.value;
    SameCombination(w, plan.combinations, c, x);
    var k :| 0 <= k < |wanted| && wanted[k] == c;
    assert CutAll(wanted, s)[k] == Cutting(c, s);
    CutConsistent(w, c.triple, s);
    ReleaseRows.HoldsTogetherIs(w, c.triple);
    ReleaseRows.HoldsTogetherIs(w, Cutting(c, s).triple);
    hide Consistent;
    hide WellFormed;
  }

  lemma SameCombination(w: World, found: seq<Combination>, c: Combination, x: Combination)
    requires WellFormed(w, true, found) && c in found && x in found && c.id == x.id
    ensures c == x
  {
    var i :| 0 <= i < |found| && found[i] == c;
    var k :| 0 <= k < |found| && found[k] == x;
    OneToAnId(w, found, i, k);
  }

  lemma CutDownRow(w: World, s: Stage, plan: Plan, wanted: seq<Combination>, row: Row)
    requires Below(s).Some? && WellFormed(w, true, plan.combinations)
    requires forall x :: x in wanted ==> x in plan.combinations
    requires ReleaseRows.BuildsDown(w, true, Checkout, plan.combinations, s, row)
    requires row.combination.Some? ==> Names(wanted, row.combination.value)
    ensures ReleaseRows.BuildsDown(w, true, Released, CutAll(wanted, s), s, row)
  {
    hide ReleaseRows.ToolsFor;
    hide ReleaseRows.TakerFor;
    hide ReleaseRows.IsTheRowOf;
    hide WellFormed;
    hide Names;
    hide Cutting;
    if row.combination.Some? {
      var neighbour := Below(s).value;
      var c :| ReleaseRows.IsTheRowOf(w, Checkout, plan.combinations, s, neighbour, row, c)
               && if s.Sdk? then ReleaseRows.ToolsFor(w, row.subject, true, Some(c.triple.tools))
                  else ReleaseRows.TakerFor(w, Workspace, w.declared(Workspace), true, Some(c.triple.sdk));
      CutNamed(w, s, neighbour, plan, wanted, row, c);
      assert s.Sdk? ==> Cutting(c, s).triple.At(Tools) == c.triple.At(Tools);
      assert s.Workspace? ==> Cutting(c, s).triple.At(Sdk) == c.triple.At(Sdk);
    }
  }

  lemma CutUpRow(w: World, s: Stage, plan: Plan, wanted: seq<Combination>, row: Row)
    requires AboveOf(s).Some? && WellFormed(w, true, plan.combinations)
    requires forall x :: x in wanted ==> x in plan.combinations
    requires ReleaseRows.BuildsUp(w, true, Checkout, plan.combinations, s, row)
    requires row.combination.Some? ==> Names(wanted, row.combination.value)
    ensures ReleaseRows.BuildsUp(w, true, Released, CutAll(wanted, s), s, row)
  {
    hide ReleaseRows.ToolsFor;
    hide ReleaseRows.TakerFor;
    hide ReleaseRows.IsTheRowOf;
    hide WellFormed;
    hide Names;
    hide Cutting;
    if row.combination.Some? {
      var neighbour := AboveOf(s).value;
      var c :| ReleaseRows.IsTheRowOf(w, Checkout, plan.combinations, s, neighbour, row, c)
               && if s.Workspace? then ReleaseRows.ToolsFor(w, Here(w, Workspace), true, Some(c.triple.tools))
                  else ReleaseRows.TakerFor(w, Workspace, row.subject.version, true, Some(c.triple.sdk));
      CutNamed(w, s, neighbour, plan, wanted, row, c);
      assert s.Workspace? ==> Cutting(c, s).triple.At(Tools) == c.triple.At(Tools);
      assert s.Tools? ==> Cutting(c, s).triple.At(Sdk) == c.triple.At(Sdk);
    }
  }

  /** The tagged line's rows, as the whole catalogue has them. */
  lemma RowsOfPlan(w: World, s: Stage, plan: Plan)
    requires PlanOk(w, true, plan)
    ensures WellFormed(w, true, plan.combinations)
    ensures if Below(s).Some? then ReleaseRows.DownIs(w, true, plan.combinations, s, DownOf(plan, s))
            else DownOf(plan, s) == []
    ensures if AboveOf(s).Some? then ReleaseRows.UpIs(w, true, plan.combinations, s, UpOf(plan, s))
            else UpOf(plan, s) == []
  {
    hide ReleaseRows.DownIs;
    hide ReleaseRows.UpIs;
    hide WellFormed;
    hide Marked;
    hide DownRows;
    hide UpRows;
    ReleaseRows.PlanIs(w, true, plan);
    match s {
      case Sdk =>
      case Workspace =>
      case Tools =>
    }
  }

  lemma CutDownRows(w: World, s: Stage, plan: Plan, wanted: seq<Combination>, rows: seq<Row>)
    requires Below(s).Some? && WellFormed(w, true, plan.combinations)
    requires ReleaseRows.DownIs(w, true, plan.combinations, s, rows)
    requires forall c :: c in wanted ==> c in plan.combinations
    requires forall row :: row in rows && row.combination.Some? ==> Names(wanted, row.combination.value)
    ensures ReleaseRows.Spans(w, Below(s).value, ReleaseRows.Range(w, s), false, rows)
    ensures forall row :: row in rows ==> ReleaseRows.BuildsDown(w, true, Released, CutAll(wanted, s), s, row)
  {
    hide ReleaseRows.Spans;
    hide ReleaseRows.BuildsDown;
    hide WellFormed;
    hide Names;
    hide CutAll;
    forall row | row in rows
      ensures ReleaseRows.BuildsDown(w, true, Released, CutAll(wanted, s), s, row)
    {
      CutDownRow(w, s, plan, wanted, row);
    }
  }

  lemma CutUpRows(w: World, s: Stage, plan: Plan, wanted: seq<Combination>, rows: seq<Row>)
    requires AboveOf(s).Some? && WellFormed(w, true, plan.combinations)
    requires ReleaseRows.UpIs(w, true, plan.combinations, s, rows)
    requires forall c :: c in wanted ==> c in plan.combinations
    requires forall row :: row in rows && row.combination.Some? ==> Names(wanted, row.combination.value)
    ensures ReleaseRows.Spans(w, AboveOf(s).value, ReleaseRows.Takers(w, s), false, rows)
    ensures forall row :: row in rows ==> ReleaseRows.BuildsUp(w, true, Released, CutAll(wanted, s), s, row)
  {
    hide ReleaseRows.Spans;
    hide ReleaseRows.BuildsUp;
    hide WellFormed;
    hide Names;
    hide CutAll;
    forall row | row in rows
      ensures ReleaseRows.BuildsUp(w, true, Released, CutAll(wanted, s), s, row)
    {
      CutUpRow(w, s, plan, wanted, row);
    }
  }

  lemma CutRows(w: World, s: Stage, plan: Plan, wanted: seq<Combination>, gate: Gate)
    requires gate.Gate? && PlanOk(w, true, plan)
    requires gate.down == DownOf(plan, s) && gate.up == UpOf(plan, s) && gate.combinations == CutAll(wanted, s)
    requires forall c :: c in wanted ==> c in plan.combinations
    requires forall r :: r in gate.down && r.combination.Some? ==> Names(wanted, r.combination.value)
    requires forall r :: r in gate.up && r.combination.Some? ==> Names(wanted, r.combination.value)
    ensures TriedRows(w, s, gate)
  {
    RowsOfPlan(w, s, plan);
    hide PlanOk;
    hide CutAll;
    hide WellFormed;
    hide Names;
    hide DownOf;
    hide UpOf;
    hide ReleaseRows.DownIs;
    hide ReleaseRows.UpIs;
    hide ReleaseRows.Spans;
    hide ReleaseRows.Range;
    hide ReleaseRows.Takers;
    hide ReleaseRows.BuildsDown;
    hide ReleaseRows.BuildsUp;
    match s {
      case Sdk => CutDownRows(w, s, plan, wanted, gate.down);
      case Workspace =>
        CutDownRows(w, s, plan, wanted, gate.down);
        CutUpRows(w, s, plan, wanted, gate.up);
      case Tools => CutUpRows(w, s, plan, wanted, gate.up);
    }
  }

  method BuildGate(w: World, s: Stage) returns (gate: Gate)
    ensures gate.Blocked? <==> Chain(w.pep, w.releases, s, w.own(s)).None?
    ensures gate.Gate? ==> Some(gate.below) == Chain(w.pep, w.releases, s, w.own(s)) && gate.combinations != []
    ensures gate.Gate? && !LineStarts(gate) ==> forall c :: c in gate.combinations ==> Tried(w, s, c)
    ensures gate.Gate? && LineStarts(gate) ==>
              |gate.combinations| == 1 && Started(w, s, gate.below, gate.combinations[0])
    ensures gate.Gate? ==> gate.verify == VerifyChoice(s, gate.down, gate.up, gate.combinations)
    ensures gate.Gate? && !LineStarts(gate) ==> TriedRows(w, s, gate)
    ensures OneReleaseEach(w) && gate.Gate? && s.Sdk? ==> SdkDecided(w, gate)
    ensures OneReleaseEach(w) && gate.Gate? && s.Workspace? ==> WorkspaceDecided(w, gate)
  {
    hide PlanOk;
    hide Tried;
    hide Started;
    hide OneReleaseEach;
    hide Chain;
    hide NewestAccepting;
    hide SdkDecided;
    hide WorkspaceDecided;
    hide VerifyChoice;
    hide TriedRows;
    var below, blocked := ResolveBelow(w.pep, w.releases, s, w.own(s));
    if blocked {
      return Blocked;
    }
    var plan := BuildPlan(w, true);
    var down, up := DownOf(plan, s), UpOf(plan, s);
    RowsNameTheirs(w, s, plan);
    var wanted := Wanted(plan.combinations, down + up);
    if wanted == [] {
      NothingTried(w, s, plan, down, up);
      var c, row := ChainAround(w, s, below);
      StartedCombination(w, s, below, c);
      if s.Sdk? {
        down := down + [row];
      } else {
        up := up + [row];
      }
      assert CutAll([c], s) == [c];
      gate := Gate(down, up, [c], below, VerifyChoice(s, down, up, [c]));
      assert c in gate.combinations;
      StartIsDecided(w, s, gate);
    } else {
      var cut := CutAll(wanted, s);
      CutIsTried(w, s, plan, wanted);
      gate := Gate(down, up, cut, below, VerifyChoice(s, down, up, cut));
      TriedIsNoStart(w, s, gate);
      TriedIsDecided(w, s, plan, wanted, gate);
      CutRows(w, s, plan, wanted, gate);
    }
  }

  lemma StartIsDecided(w: World, s: Stage, gate: Gate)
    requires gate.Gate? && LineStarts(gate) && Some(gate.below) == Chain(w.pep, w.releases, s, w.own(s))
    requires OneReleaseEach(w) ==> !s.Sdk?
    requires OneReleaseEach(w) && s.Workspace? ==>
               && NewestAccepting(w.pep, w.Entries(Sdk), Family(Workspace), w.declared(Workspace)).None?
               && Tools in Chain(w.pep, w.releases, s, w.own(s)).value
    ensures OneReleaseEach(w) && s.Sdk? ==> SdkDecided(w, gate)
    ensures OneReleaseEach(w) && s.Workspace? ==> WorkspaceDecided(w, gate)
  {
    hide OneReleaseEach;
    hide Chain;
    hide NewestAccepting;
  }

  lemma TriedIsDecided(w: World, s: Stage, plan: Plan, wanted: seq<Combination>, gate: Gate)
    requires gate.Gate? && PlanOk(w, true, plan) && Some(gate.below) == Chain(w.pep, w.releases, s, w.own(s))
    requires gate.down == DownOf(plan, s) && gate.up == UpOf(plan, s) && gate.combinations == CutAll(wanted, s)
    requires gate.verify == VerifyChoice(s, gate.down, gate.up, gate.combinations) && !LineStarts(gate)
    requires wanted != [] && forall c :: c in wanted ==> c in plan.combinations
    requires forall c :: c in wanted ==> exists r :: r in gate.down + gate.up && r.combination == Some(c.id)
    requires forall r :: r in gate.down + gate.up && r.combination.Some? ==> Names(wanted, r.combination.value)
    ensures OneReleaseEach(w) && s.Sdk? ==> SdkDecided(w, gate)
    ensures OneReleaseEach(w) && s.Workspace? ==> WorkspaceDecided(w, gate)
  {
    hide OneReleaseEach;
    hide Chain;
    hide NewestAccepting;
    hide PlanOk;
    hide Decides;
    if OneReleaseEach(w) {
      LastRowDecides(w, s, plan, wanted, gate);
      DecidingRowIsNamed(gate);
    }
  }

  lemma DecidingRowIsNamed(gate: Gate)
    ensures forall row, t :: gate.Gate? && Decides(gate, row, t) ==> row.combination.Some?
  {
  }

  lemma RowsNameTheirs(w: World, s: Stage, plan: Plan)
    requires PlanOk(w, true, plan)
    ensures forall r :: r in DownOf(plan, s) + UpOf(plan, s) && r.combination.Some? ==>
              Names(plan.combinations, r.combination.value)
  {
    HalfOfPlan(w, s, plan);
    hide PlanOk;
    forall r | r in DownOf(plan, s) + UpOf(plan, s) && r.combination.Some?
      ensures Names(plan.combinations, r.combination.value)
    {
      var t: Option<Triple> :| RowShows(plan.combinations, r, t);
      var i :| 0 <= i < |plan.combinations| && plan.combinations[i].triple == t.value
               && r.combination == Some(plan.combinations[i].id);
      assert plan.combinations[i] in plan.combinations;
    }
  }

  lemma StartedCombination(w: World, s: Stage, below: map<Stage, Published>, c: Combination)
    requires c.id == LineStart && c.consistent == Consistent(w, c.triple)
    requires forall x: Stage :: c.triple.At(x) == Around(w, s, below, AboveChain(w, s, w.declared(s)), x)
    ensures Started(w, s, below, c) && Cutting(c, s) == c
  {
    hide Consistent;
    hide AboveChain;
  }

  /** The fallback, by the published releases alone: the release itself, the chain it
      resolves to below it, and above it the newest published version that takes what is
      below, or this commit's where none does. */
  lemma StartedIs(w: World, s: Stage, below: map<Stage, Published>, c: Combination)
    requires Started(w, s, below, c)
    requires forall x: Stage :: x in below ==> x != s && (AboveOf(s).Some? ==> x != AboveOf(s).value)
    ensures c.triple.At(s) == Piece(Released, w.declared(s), "")
    ensures c.consistent <==> ReleaseRows.HoldsTogether(w, c.triple)
    ensures s.Workspace? ==> ReleaseRows.TakerFor(w, Workspace, w.declared(Workspace), false, Some(c.triple.sdk))
    ensures s.Tools? ==>
              && ReleaseRows.TakerFor(w, Tools, w.declared(Tools), false, Some(c.triple.workspace))
              && ReleaseRows.TakerFor(w, Workspace, c.triple.workspace.version, false, Some(c.triple.sdk))
    ensures s.Sdk? && Workspace in below ==>
              c.triple.workspace == Piece(FromRelease, below[Workspace].version, below[Workspace].tag)
    ensures !s.Tools? && Tools in below ==>
              c.triple.tools == Piece(FromRelease, below[Tools].version, below[Tools].tag)
  {
    ReleaseRows.HoldsTogetherIs(w, c.triple);
    hide ReleaseRows.HoldsTogether;
    hide Consistent;
    assert forall x: Stage :: c.triple.At(x) == Around(w, s, below, AboveChain(w, s, w.declared(s)), x);
    assert c.triple.At(Sdk) == c.triple.sdk && c.triple.At(Workspace) == c.triple.workspace;
    assert c.triple.At(Tools) == c.triple.tools;
    AboveIs(w, s);
    hide ReleaseRows.TakerFor;
    hide AboveChain;
  }

  lemma AboveIs(w: World, s: Stage)
    ensures var above := AboveChain(w, s, w.declared(s));
            && (s.Sdk? ==> above == map[])
            && (s.Workspace? ==>
                  && above.Keys == {Sdk}
                  && ReleaseRows.TakerFor(w, Workspace, w.declared(Workspace), false, Some(above[Sdk])))
            && (s.Tools? ==>
                  && above.Keys == {Workspace, Sdk}
                  && ReleaseRows.TakerFor(w, Tools, w.declared(Tools), false, Some(above[Workspace]))
                  && ReleaseRows.TakerFor(w, Workspace, above[Workspace].version, false, Some(above[Sdk])))
  {
    hide AboveChain;
    hide NewestAccepting;
    hide ReleaseRows.TakerFor;
    var version := w.declared(s);
    OneUp(w, s, version);
    if AboveOf(s).Some? {
      var upper := AboveOf(s).value;
      ReleaseRows.NewestTakerIs(w, s, version, false);
      var newest := NewestAccepting(w.pep, w.Entries(upper), Family(s), version);
      var piece := if newest.Some? then Of(newest.value) else Here(w, upper);
      OneUp(w, upper, piece.version);
      if upper.Workspace? {
        ReleaseRows.NewestTakerIs(w, Workspace, piece.version, false);
        var over := NewestAccepting(w.pep, w.Entries(Sdk), Family(Workspace), piece.version);
        OneUp(w, Sdk, if over.Some? then over.value.version else w.declared(Sdk));
      }
    }
  }

  lemma TriedIsNoStart(w: World, s: Stage, gate: Gate)
    requires gate.Gate? && forall c :: c in gate.combinations ==> Tried(w, s, c)
    ensures !LineStarts(gate)
  {
    hide Consistent;
  }

  /** What an empty selection says about the published world. */
  lemma NothingTried(w: World, s: Stage, plan: Plan, down: seq<Row>, up: seq<Row>)
    requires PlanOk(w, true, plan) && down == DownOf(plan, s) && up == UpOf(plan, s)
    requires forall r :: r in down + up ==> r.combination.None?
    requires Chain(w.pep, w.releases, s, w.own(s)).Some?
    ensures OneReleaseEach(w) ==> !s.Sdk?
    ensures OneReleaseEach(w) && s.Workspace? ==>
              && NewestAccepting(w.pep, w.Entries(Sdk), Family(Workspace), w.declared(Workspace)).None?
              && Tools in Chain(w.pep, w.releases, s, w.own(s)).value
  {
    hide OneReleaseEach;
    hide Chain;
    hide NewestAccepting;
    hide PlanOk;
    hide DownSubjects;
    hide UpSubjects;
    hide DownTriple;
    hide UpTriple;
    hide Consistent;
    if OneReleaseEach(w) {
      HalfOfPlan(w, s, plan);
      if s.Sdk? {
        SdkLastRow(w);
      } else if s.Workspace? {
        WorkspaceRows(w);
        assert up != [] ==> up[|up| - 1] in down + up;
      }
    }
  }

  lemma LastRowDecides(w: World, s: Stage, plan: Plan, wanted: seq<Combination>, gate: Gate)
    requires OneReleaseEach(w) && PlanOk(w, true, plan) && Chain(w.pep, w.releases, s, w.own(s)).Some?
    requires gate.Gate? && gate.down == DownOf(plan, s) && gate.up == UpOf(plan, s)
        && gate.combinations == CutAll(wanted, s)
    requires gate.below == Chain(w.pep, w.releases, s, w.own(s)).value
    requires wanted != [] && forall c :: c in wanted ==> c in plan.combinations
    requires forall c :: c in wanted ==> exists r :: r in gate.down + gate.up && r.combination == Some(c.id)
    requires forall r :: r in gate.down + gate.up && r.combination.Some? ==> Names(wanted, r.combination.value)
    ensures s.Sdk? ==>
              && Workspace in gate.below && Tools in gate.below && gate.down != []
              && Decides(gate, gate.down[|gate.down| - 1],
                         Triple(Piece(Released, w.declared(Sdk), ""), Of(gate.below[Workspace]), Of(gate.below[Tools])))
    ensures s.Workspace? ==>
              var sdk := NewestAccepting(w.pep, w.Entries(Sdk), Family(Workspace), w.declared(Workspace));
              && Tools in gate.below && sdk.Some? && gate.up != []
              && Decides(gate, gate.up[|gate.up| - 1],
                         Triple(Of(sdk.value), Piece(Released, w.declared(Workspace), ""), Of(gate.below[Tools])))
  {
    hide OneReleaseEach;
    hide Chain;
    hide NewestAccepting;
    hide PlanOk;
    hide DownSubjects;
    hide UpSubjects;
    hide DownTriple;
    hide UpTriple;
    hide Consistent;
    hide RowShows;
    hide Decides;
    HalfOfPlan(w, s, plan);
    if s.Sdk? {
      SdkLastRow(w);
      var row := gate.down[|gate.down| - 1];
      var t := Triple(Here(w, Sdk), Of(gate.below[Workspace]), Of(gate.below[Tools]));
      assert row in gate.down + gate.up;
      ShownIsNamed(plan.combinations, row, t);
      CutDecides(w, s, plan, wanted, gate, row, t);
    } else if s.Workspace? {
      WorkspaceRows(w);
      SomethingTried(w, plan, wanted, gate);
      var sdk := NewestAccepting(w.pep, w.Entries(Sdk), Family(Workspace), w.declared(Workspace)).value;
      var row := gate.up[|gate.up| - 1];
      var t := Triple(Of(sdk), Here(w, Workspace), Of(gate.below[Tools]));
      assert row in gate.down + gate.up;
      ShownIsNamed(plan.combinations, row, t);
      CutDecides(w, s, plan, wanted, gate, row, t);
    }
  }

  lemma ShownIsNamed(found: seq<Combination>, row: Row, t: Triple)
    requires RowShows(found, row, Some(t))
    ensures row.combination.Some?
  {
  }

  /** If anything was tried, some published SDK takes the workspace. */
  lemma SomethingTried(w: World, plan: Plan, wanted: seq<Combination>, gate: Gate)
    requires OneReleaseEach(w) && PlanOk(w, true, plan) && Chain(w.pep, w.releases, Workspace, w.own(Workspace)).Some?
    requires gate.Gate? && gate.down == DownOf(plan, Workspace) && gate.up == UpOf(plan, Workspace)
    requires wanted != []
    requires forall c :: c in wanted ==> exists r :: r in gate.down + gate.up && r.combination == Some(c.id)
    ensures NewestAccepting(w.pep, w.Entries(Sdk), Family(Workspace), w.declared(Workspace)).Some?
  {
    hide OneReleaseEach;
    hide Chain;
    hide NewestAccepting;
    hide PlanOk;
    hide DownSubjects;
    hide UpSubjects;
    hide DownTriple;
    hide UpTriple;
    hide Consistent;
    WorkspaceRows(w);
    HalfOfPlan(w, Workspace, plan);
    assert wanted[0] in wanted;
    var r :| r in gate.down + gate.up && r.combination == Some(wanted[0].id);
    if r in gate.down {
      var i :| 0 <= i < |gate.down| && gate.down[i] == r;
      assert RowShows(plan.combinations, r, DownTriple(w, Workspace, DownSubjects(w, Workspace, true)[i], true));
    }
  }

  /** The tags of a triple, with the tagged line's own. */
  function TagsOf(w: World, s: Stage, t: Triple): Tags {
    Tags(if s.Sdk? then Prefix(Sdk) + w.declared(Sdk) else t.sdk.tag,
         if s.Workspace? then Prefix(Workspace) + w.declared(Workspace) else t.workspace.tag,
         t.tools.tag, t.workspace.version)
  }

  ghost predicate Verifies(gate: Gate, t: Triple)
    requires gate.Gate?
  {
    exists c :: c in gate.combinations && gate.verify == Some(c.id) && c.triple == t && c.consistent
  }

  /** After the release is published with what it declared, the verification of it
      resolves the very packages of the combination the gate marked to verify. */
  lemma SdkIsVerified(w: World, gate: Gate)
    requires OneReleaseEach(w) && w.pep.valid(w.declared(Sdk)) && gate.Gate? && SdkDecided(w, gate)
    requires forall e :: e in w.Entries(Sdk) ==> e.version != w.declared(Sdk)
    requires Some(gate.below) == Chain(w.pep, w.releases, Sdk, w.own(Sdk))
    ensures exists t :: Verifies(gate, t)
                        && VerifyPlan(w.pep, w.releases + [Cut(Sdk, w.declared(Sdk), w.own(Sdk))], Sdk, w.declared(Sdk))
                           == Some(TagsOf(w, Sdk, t))
  {
    hide OneReleaseEach;
    hide Chain;
    hide VerifyPlan;
    hide Candidates;
    var t := Triple(Piece(Released, w.declared(Sdk), ""), Of(gate.below[Workspace]), Of(gate.below[Tools]));
    DecidedVerifies(gate, gate.down[|gate.down| - 1], t);
    VerifyAgreesForSdk(w.pep, w.releases, w.declared(Sdk), w.own(Sdk));
  }

  /** The same for a workspace some published SDK takes, and its image delivers
      the tools of that combination. */
  lemma WorkspaceIsVerified(w: World, gate: Gate)
    requires OneReleaseEach(w) && w.pep.valid(w.declared(Workspace)) && gate.Gate? && WorkspaceDecided(w, gate)
    requires forall e :: e in w.Entries(Workspace) ==> e.version != w.declared(Workspace)
    requires Some(gate.below) == Chain(w.pep, w.releases, Workspace, w.own(Workspace))
    ensures var after := w.releases + [Cut(Workspace, w.declared(Workspace), w.own(Workspace))];
            var image := ImagePackages(w.pep, after, w.declared(Workspace), w.own(Workspace));
            && image.Some? && image.value.tools == gate.below[Tools]
            && if LineStarts(gate) then VerifyPlan(w.pep, after, Workspace, w.declared(Workspace)) == None
               else exists t :: Verifies(gate, t) && image.value.sdk.Some? && t.sdk == Of(image.value.sdk.value)
                                && t.tools == Of(image.value.tools)
                                && VerifyPlan(w.pep, after, Workspace, w.declared(Workspace))
                                  == Some(TagsOf(w, Workspace, t))
  {
    hide OneReleaseEach;
    hide Chain;
    hide VerifyPlan;
    hide ImagePackages;
    hide Candidates;
    hide NewestAccepting;
    hide LineStarts;
    VerifyAgreesForWorkspace(w.pep, w.releases, w.declared(Workspace), w.own(Workspace));
    if !LineStarts(gate) {
      var sdk := NewestAccepting(w.pep, w.Entries(Sdk), Family(Workspace), w.declared(Workspace)).value;
      var t := Triple(Of(sdk), Piece(Released, w.declared(Workspace), ""), Of(gate.below[Tools]));
      DecidedVerifies(gate, gate.up[|gate.up| - 1], t);
    }
  }

  lemma DecidedVerifies(gate: Gate, row: Row, t: Triple)
    requires gate.Gate? && Decides(gate, row, t) && gate.verify == row.combination
    ensures Verifies(gate, t)
  {
  }

  // ---- the packages a gate run builds --------------------------------------------------------

  datatype Job = Job(stage: Stage, platform: string, released: bool, suffix: bool)

  predicate Takes(combinations: seq<Combination>, s: Stage, source: Source) {
    exists c :: c in combinations && c.triple.At(s).source == source
  }

  predicate Built(combinations: seq<Combination>, s: Stage) {
    Takes(combinations, s, Released) || Takes(combinations, s, Checkout)
  }

  function Jobs(s: Stage, released: bool): seq<Job> {
    var suffix := !released && !s.Workspace?;
    if s.Tools? then [Job(s, "linux-amd64", released, suffix), Job(s, "linux-arm64", released, suffix)]
    else [Job(s, "", released, suffix)]
  }

  function JobsOf(combinations: seq<Combination>, s: Stage): seq<Job> {
    if Built(combinations, s) then Jobs(s, Takes(combinations, s, Released)) else []
  }

  /** What is taken from this commit by the first `n` combinations: released wins. */
  ghost predicate Collected(combinations: seq<Combination>, n: nat, wanted: map<Stage, Source>)
    requires n <= |combinations|
  {
    forall s: Stage ::
      && (s in wanted <==> Built(combinations[..n], s))
      && (s in wanted ==> wanted[s] == if Takes(combinations[..n], s, Released) then Released else Checkout)
  }

  /** gate_packages: every line some combination takes from this commit, and the
      tagged one at the version its tag names. */
  method GatePackages(combinations: seq<Combination>) returns (matrix: seq<Job>)
    ensures matrix == JobsOf(combinations, Sdk) + JobsOf(combinations, Workspace) + JobsOf(combinations, Tools)
  {
    hide Takes;
    hide Collect;
    hide Collected;
    hide JobsOf;
    hide Jobs;
    var wanted: map<Stage, Source> := map[];
    NothingCollected(combinations);
    for n := 0 to |combinations|
      invariant Collected(combinations, n, wanted)
    {
      var before := wanted;
      wanted := Collect(wanted, combinations[n], Sdk);
      wanted := Collect(wanted, combinations[n], Workspace);
      wanted := Collect(wanted, combinations[n], Tools);
      CollectsOne(combinations, n, before, wanted);
    }
    JobsCollected(combinations, wanted);
    matrix := [];
    if Sdk in wanted {
      matrix := matrix + Jobs(Sdk, wanted[Sdk] == Released);
    }
    if Workspace in wanted {
      matrix := matrix + Jobs(Workspace, wanted[Workspace] == Released);
    }
    if Tools in wanted {
      matrix := matrix + Jobs(Tools, wanted[Tools] == Released);
    }
  }

  lemma NothingCollected(combinations: seq<Combination>)
    ensures Collected(combinations, 0, map[])
  {
  }

  lemma JobsCollected(combinations: seq<Combination>, wanted: map<Stage, Source>)
    requires Collected(combinations, |combinations|, wanted)
    ensures forall s: Stage :: JobsOf(combinations, s) == if s in wanted then Jobs(s, wanted[s] == Released) else []
  {
    hide Takes;
    hide Jobs;
    assert combinations[..|combinations|] == combinations;
  }

  function Collect(wanted: map<Stage, Source>, c: Combination, s: Stage): map<Stage, Source> {
    var source := c.triple.At(s).source;
    if !source.FromRelease? && (s !in wanted || wanted[s] != Released) then wanted[s := source] else wanted
  }

  lemma CollectsOne(combinations: seq<Combination>, n: nat, before: map<Stage, Source>, after: map<Stage, Source>)
    requires n < |combinations| && Collected(combinations, n, before)
    requires var c := combinations[n]; after == Collect(Collect(Collect(before, c, Sdk), c, Workspace), c, Tools)
    ensures Collected(combinations, n + 1, after)
  {
    hide Takes;
    var c := combinations[n];
    assert combinations[..n + 1] == combinations[..n] + [c];
    forall s: Stage
      ensures s in after <==> Built(combinations[..n + 1], s)
      ensures s in after ==> after[s] == if Takes(combinations[..n + 1], s, Released) then Released else Checkout
    {
      OneMoreTakes(combinations[..n], c, s, Released);
      OneMoreTakes(combinations[..n], c, s, Checkout);
      assert s in after <==> s in Collect(before, c, s);
      assert s in after ==> after[s] == Collect(before, c, s)[s];
    }
  }

  lemma OneMoreTakes(front: seq<Combination>, c: Combination, s: Stage, source: Source)
    ensures Takes(front + [c], s, source) <==> Takes(front, s, source) || c.triple.At(s).source == source
  {
    assert c in front + [c];
    if Takes(front, s, source) {
      var d :| d in front && d.triple.At(s).source == source;
      assert d in front + [c];
    }
  }

  /** The jobs, one by one: a line is built exactly where a combination takes it from
      this commit; the tools once on each platform and the others on none in
      particular; released where one combination releases it; and a stand-in carries a
      suffix, except the workspace. */
  lemma JobsExactly(combinations: seq<Combination>, s: Stage, job: Job)
    ensures job in JobsOf(combinations, s)
            <==> (exists c :: c in combinations && !c.triple.At(s).source.FromRelease?)
                 && job.stage == s
                 && (if s == Tools then job.platform == "linux-amd64" || job.platform == "linux-arm64"
                     else job.platform == "")
                 && (job.released <==> exists c :: c in combinations && c.triple.At(s).source == Released)
                 && (job.suffix <==> !job.released && s != Workspace)
    ensures forall i, k :: 0 <= i < k < |JobsOf(combinations, s)| ==>
              JobsOf(combinations, s)[i] != JobsOf(combinations, s)[k]
  {
    assert Built(combinations, s) <==> exists c :: c in combinations && !c.triple.At(s).source.FromRelease?;
    var released := Takes(combinations, s, Released);
    var jobs := Jobs(s, released);
    hide Takes;
    if s.Tools? {
      assert jobs == [Job(s, "linux-amd64", released, !released), Job(s, "linux-arm64", released, !released)];
      assert "linux-amd64"[6] != "linux-arm64"[6] || "linux-amd64"[7] != "linux-arm64"[7];
    } else {
      assert jobs == [Job(s, "", released, !released && s != Workspace)];
    }
  }

  /** A tag whose combinations published neighbours decide builds its own line and
      nothing else, and releases what it builds. */
  lemma BuildsOnlyTheTagged(w: World, s: Stage, gate: Gate)
    requires gate.Gate? && gate.combinations != [] && forall c :: c in gate.combinations ==> Tried(w, s, c)
    ensures JobsOf(gate.combinations, Sdk) + JobsOf(gate.combinations, Workspace) + JobsOf(gate.combinations, Tools)
            == Jobs(s, true)
  {
    hide Consistent;
    assert gate.combinations[0] in gate.combinations;
    forall x: Stage
      ensures JobsOf(gate.combinations, x) == if x == s then Jobs(s, true) else []
    {
      if x == s {
        assert Takes(gate.combinations, s, Released);
      }
    }
  }
}
