/** What a plan's rows and combinations are, said of the published releases alone
    (scripts/release_readiness.py, build_plan and _chain): which package each stage of
    a combination is, and when a combination holds together. */
module ReleaseRows {
  import opened Wrappers
  import opened ReleaseWorld
  import opened ReleasePlan

  // ---- one package, against the stage below and above -------------------------------

  /** The candidate a version names; the last one, should there be several. */
  ghost predicate IsCandidate(w: World, s: Stage, e: Published, version: string) {
    var all := w.Entries(s);
    exists k :: 0 <= k < |all| && all[k] == e && e.version == version
                && forall j :: k < j < |all| ==> all[j].version != version
  }

  /** What the package requires of the stage below admits this version: a published
      one by its own meta file, this commit's by what it declares. */
  ghost predicate Admits(w: World, s: Stage, piece: Piece, version: string)
    requires Below(s).Some?
  {
    var family := Family(Below(s).value);
    if piece.source.FromRelease?
    then exists e :: IsCandidate(w, s, e, piece.version) && Accepts(w.pep, ConstraintOn(e.needs, family), version)
    else Accepts(w.pep, ConstraintOn(w.own(s), family), version)
  }

  /** Both packages above admit the one below them. */
  ghost predicate HoldsTogether(w: World, t: Triple) {
    Admits(w, Sdk, t.sdk, t.workspace.version) && Admits(w, Workspace, t.workspace, t.tools.version)
  }

  /** A published version of a stage takes this version of the stage below. */
  predicate Takes(w: World, lower: Stage, e: Published, version: string) {
    Accepts(w.pep, ConstraintOn(e.needs, Family(lower)), version)
  }

  predicate Ours(w: World, s: Stage, piece: Piece) {
    piece == Piece(Checkout, w.declared(s), "")
  }

  /** The newest published tools the workspace admits; this commit's, or none under
      the tag rule, only where it admits none. */
  ghost predicate ToolsFor(w: World, workspace: Piece, publishedOnly: bool, tools: Option<Piece>) {
    var fits := iset e | e in w.Entries(Tools) && Admits(w, Workspace, workspace, e.version);
    if fits == iset{} then
      if publishedOnly then tools == None else tools.Some? && Ours(w, Tools, tools.value)
    else
      exists e :: e in fits && tools == Some(Piece(FromRelease, e.version, e.tag))
                  && forall f :: f in fits ==> w.pep.rank(f.version) <= w.pep.rank(e.version)
  }

  /** The newest published version above that takes this one; this commit's, or none
      under the tag rule, only where none does. */
  ghost predicate TakerFor(w: World, lower: Stage, version: string, publishedOnly: bool, upper: Option<Piece>)
    requires AboveOf(lower).Some?
  {
    var fits := iset e | e in w.Entries(AboveOf(lower).value) && Takes(w, lower, e, version);
    if fits == iset{} then
      if publishedOnly then upper == None else upper.Some? && Ours(w, AboveOf(lower).value, upper.value)
    else
      exists e :: e in fits && upper == Some(Piece(FromRelease, e.version, e.tag))
                  && forall f :: f in fits ==> w.pep.rank(f.version) <= w.pep.rank(e.version)
  }

  lemma {:induction false} ByVersionIsCandidate(w: World, s: Stage, entries: seq<Published>, version: string)
    ensures var e := ByVersion(entries, version);
            if e.None? then forall k :: 0 <= k < |entries| ==> entries[k].version != version
            else exists k :: 0 <= k < |entries| && entries[k] == e.value && e.value.version == version
                             && forall j :: k < j < |entries| ==> entries[j].version != version
  {
    if entries != [] {
      var n := |entries| - 1;
      ByVersionIsCandidate(w, s, entries[..n], version);
      if entries[n].version != version && ByVersion(entries[..n], version).Some? {
        var k :| 0 <= k < n && entries[..n][k] == ByVersion(entries[..n], version).value
                 && forall j :: k < j < n ==> entries[..n][j].version != version;
        assert forall j :: k < j < |entries| ==> entries[j].version != version by {
          assert forall j :: k < j < n ==> entries[j] == entries[..n][j];
        }
        assert entries[k] == entries[..n][k];
      } else if entries[n].version != version {
        assert forall k :: 0 <= k < n ==> entries[k] == entries[..n][k];
      }
    }
  }

  lemma AdmitsIs(w: World, s: Stage, piece: Piece, version: string)
    requires Below(s).Some?
    ensures Admits(w, s, piece, version) <==> Accepts(w.pep, RequiredBelow(w, s, piece), version)
  {
    hide ConstraintOn;
    hide Candidates;
    var all := w.Entries(s);
    ByVersionIsCandidate(w, s, all, piece.version);
    var e := ByVersion(all, piece.version);
    hide ByVersion;
    if piece.source.FromRelease? {
      if e.Some? {
        assert IsCandidate(w, s, e.value, piece.version);
        forall f | IsCandidate(w, s, f, piece.version)
          ensures f == e.value
        {
          OneCandidate(w, s, e.value, f, piece.version);
        }
      } else {
        assert forall f :: !IsCandidate(w, s, f, piece.version);
      }
    }
    hide IsCandidate;
  }

  lemma OneCandidate(w: World, s: Stage, e: Published, f: Published, version: string)
    requires IsCandidate(w, s, e, version) && IsCandidate(w, s, f, version)
    ensures e == f
  {
  }

  lemma HoldsTogetherIs(w: World, t: Triple)
    ensures HoldsTogether(w, t) <==> Consistent(w, t)
  {
    AdmitsIs(w, Sdk, t.sdk, t.workspace.version);
    AdmitsIs(w, Workspace, t.workspace, t.tools.version);
    hide Admits;
    hide RequiredBelow;
  }

  lemma NewestTools(w: World, constraint: Option<string>)
    ensures var all := Satisfying(w.pep, w.Entries(Tools), constraint);
            forall f :: f in w.Entries(Tools) && Accepts(w.pep, constraint, f.version)
                        ==> all != [] && w.pep.rank(f.version) <= w.pep.rank(all[|all| - 1].version)
  {
    hide Candidates;
    hide Accepts;
    hide Ascending;
    hide Satisfying;
    CandidatesAscend(w.pep, Tools, w.releases);
    forall f | f in w.Entries(Tools) && Accepts(w.pep, constraint, f.version)
      ensures var all := Satisfying(w.pep, w.Entries(Tools), constraint);
              all != [] && w.pep.rank(f.version) <= w.pep.rank(all[|all| - 1].version)
    {
      var k :| 0 <= k < |w.Entries(Tools)| && w.Entries(Tools)[k] == f;
      LastIsNewest(w.pep, w.Entries(Tools), constraint, k);
    }
  }

  lemma ToolsAreFor(w: World, workspace: Piece, publishedOnly: bool)
    ensures ToolsFor(w, workspace, publishedOnly, ToolsUnder(w, workspace, publishedOnly))
  {
    hide RequiredBelow;
    hide Candidates;
    hide Accepts;
    hide Satisfying;
    hide Ascending;
    var constraint := RequiredBelow(w, Workspace, workspace);
    var all := Satisfying(w.pep, w.Entries(Tools), constraint);
    var fits := iset e | e in w.Entries(Tools) && Admits(w, Workspace, workspace, e.version);
    forall e: Published
      ensures Admits(w, Workspace, workspace, e.version) <==> Accepts(w.pep, constraint, e.version)
    {
      AdmitsIs(w, Workspace, workspace, e.version);
    }
    hide Admits;
    assert forall e :: e in fits <==> e in all;
    if all == [] {
      assert fits == iset{};
    } else {
      var newest := all[|all| - 1];
      assert newest in fits;
      NewestTools(w, constraint);
      assert forall f :: f in fits ==> w.pep.rank(f.version) <= w.pep.rank(newest.version);
    }
  }

  lemma NewestTakerIs(w: World, lower: Stage, version: string, publishedOnly: bool)
    requires AboveOf(lower).Some?
    ensures var upper := AboveOf(lower).value;
            var newest := NewestAccepting(w.pep, w.Entries(upper), Family(lower), version);
            TakerFor(w, lower, version, publishedOnly,
                     if newest.Some? then Some(Of(newest.value))
                     else if publishedOnly then None else Some(Here(w, upper)))
  {
    hide Candidates;
    hide Accepts;
    hide ConstraintOn;
    hide NewestAccepting;
    hide Ascending;
    var upper := AboveOf(lower).value;
    CandidatesAscend(w.pep, upper, w.releases);
    NewestAcceptingIsNewest(w.pep, w.Entries(upper), Family(lower), version);
    var newest := NewestAccepting(w.pep, w.Entries(upper), Family(lower), version);
    var fits := iset e | e in w.Entries(upper) && Takes(w, lower, e, version);
    assert newest.Some? ==> newest.value in fits;
    assert newest.None? ==> fits == iset{};
  }

  lemma SdkIsTaker(w: World, workspace: Piece, publishedOnly: bool)
    ensures TakerFor(w, Workspace, workspace.version, publishedOnly, SdkOver(w, workspace, publishedOnly))
  {
    NewestTakerIs(w, Workspace, workspace.version, publishedOnly);
    hide TakerFor;
    hide NewestAccepting;
    hide Candidates;
  }

  // ---- the rows ------------------------------------------------------------------------

  /** The combination a row names: this commit's package at the row's own stage, the
      row's subject at its neighbour, and required exactly when it holds together. */
  ghost predicate IsTheRowOf(w: World, own: Source, found: seq<Combination>, s: Stage, neighbour: Stage, row: Row,
                             c: Combination) {
    && c in found && row.combination == Some(c.id) && row.needed == c.consistent
    && c.triple.At(s) == Piece(own, w.declared(s), "") && c.triple.At(neighbour) == row.subject
    && (c.consistent <==> HoldsTogether(w, c.triple))
  }

  /** One line of this commit over what is below it: the stage left over is the
      newest that fits, and there is no combination exactly where none does. */
  ghost predicate BuildsDown(w: World, publishedOnly: bool, own: Source, found: seq<Combination>, s: Stage, row: Row) {
    match s
    case Sdk =>
      if row.combination.None? then !row.needed && ToolsFor(w, row.subject, publishedOnly, None)
      else exists c :: IsTheRowOf(w, own, found, Sdk, Workspace, row, c)
                       && ToolsFor(w, row.subject, publishedOnly, Some(c.triple.tools))
    case Workspace =>
      if row.combination.None? then !row.needed && TakerFor(w, Workspace, w.declared(Workspace), publishedOnly, None)
      else exists c :: IsTheRowOf(w, own, found, Workspace, Tools, row, c)
                       && TakerFor(w, Workspace, w.declared(Workspace), publishedOnly, Some(c.triple.sdk))
    case Tools => false
  }

  /** One line of this commit under what is above it. */
  ghost predicate BuildsUp(w: World, publishedOnly: bool, own: Source, found: seq<Combination>, s: Stage, row: Row) {
    match s
    case Sdk => false
    case Workspace =>
      if row.combination.None? then !row.needed && ToolsFor(w, Here(w, Workspace), publishedOnly, None)
      else exists c :: IsTheRowOf(w, own, found, Workspace, Sdk, row, c)
                       && ToolsFor(w, Here(w, Workspace), publishedOnly, Some(c.triple.tools))
    case Tools =>
      if row.combination.None? then !row.needed && TakerFor(w, Workspace, row.subject.version, publishedOnly, None)
      else exists c :: IsTheRowOf(w, own, found, Tools, Workspace, row, c)
                       && TakerFor(w, Workspace, row.subject.version, publishedOnly, Some(c.triple.sdk))
  }

  lemma ShownCombination(w: World, publishedOnly: bool, found: seq<Combination>, row: Row, t: Triple)
    returns (c: Combination)
    requires WellFormed(w, publishedOnly, found) && RowShows(found, row, Some(t))
    ensures c in found && c.triple == t && row.combination == Some(c.id) && row.needed == c.consistent
    ensures c.consistent <==> HoldsTogether(w, t)
  {
    var i :| 0 <= i < |found| && found[i].triple == t && row.combination == Some(found[i].id)
             && row.needed == found[i].consistent;
    c := found[i];
    HoldsTogetherIs(w, t);
  }

  lemma DownRowBuilds(w: World, publishedOnly: bool, found: seq<Combination>, s: Stage, row: Row)
    requires Below(s).Some? && WellFormed(w, publishedOnly, found)
    requires RowShows(found, row, DownTriple(w, s, row.subject, publishedOnly))
    ensures BuildsDown(w, publishedOnly, Checkout, found, s, row)
  {
    ToolsAreFor(w, row.subject, publishedOnly);
    SdkIsTaker(w, Here(w, Workspace), publishedOnly);
    var t := DownTriple(w, s, row.subject, publishedOnly);
    hide ToolsFor;
    hide TakerFor;
    hide ToolsUnder;
    hide SdkOver;
    hide HoldsTogether;
    if t.Some? {
      var c := ShownCombination(w, publishedOnly, found, row, t.value);
      hide WellFormed;
      hide RowShows;
      assert IsTheRowOf(w, Checkout, found, s, Below(s).value, row, c);
    }
  }

  lemma UpRowBuilds(w: World, publishedOnly: bool, found: seq<Combination>, s: Stage, row: Row)
    requires AboveOf(s).Some? && WellFormed(w, publishedOnly, found)
    requires RowShows(found, row, UpTriple(w, s, row.subject, publishedOnly))
    ensures BuildsUp(w, publishedOnly, Checkout, found, s, row)
  {
    ToolsAreFor(w, Here(w, Workspace), publishedOnly);
    SdkIsTaker(w, row.subject, publishedOnly);
    var t := UpTriple(w, s, row.subject, publishedOnly);
    hide ToolsFor;
    hide TakerFor;
    hide ToolsUnder;
    hide SdkOver;
    hide HoldsTogether;
    if t.Some? {
      var c := ShownCombination(w, publishedOnly, found, row, t.value);
      hide WellFormed;
      hide RowShows;
      assert IsTheRowOf(w, Checkout, found, s, AboveOf(s).value, row, c);
    }
  }

  // ---- what a line is tried over, and under ----------------------------------------------

  /** The rows' subjects: the lowest and the highest of the published versions that
      fit, and this commit's neighbour exactly where it is tried. */
  ghost predicate Spans(w: World, neighbour: Stage, fits: iset<Published>, ours: bool, rows: seq<Row>) {
    && (forall row :: row in rows ==>
          || (ours && Ours(w, neighbour, row.subject))
          || LowEnd(w.pep, fits, row.subject) || HighEnd(w.pep, fits, row.subject))
    && (ours ==> exists row :: row in rows && Ours(w, neighbour, row.subject))
    && (fits != iset{} ==>
          && (exists row :: row in rows && LowEnd(w.pep, fits, row.subject))
          && (exists row :: row in rows && HighEnd(w.pep, fits, row.subject)))
  }

  ghost predicate LowEnd(pep: Pep, fits: iset<Published>, piece: Piece) {
    exists e :: IsLowest(pep, fits, e) && piece == Piece(FromRelease, e.version, e.tag)
  }

  ghost predicate HighEnd(pep: Pep, fits: iset<Published>, piece: Piece) {
    exists e :: IsHighest(pep, fits, e) && piece == Piece(FromRelease, e.version, e.tag)
  }

  ghost predicate IsLowest(pep: Pep, fits: iset<Published>, e: Published) {
    e in fits && forall f :: f in fits ==> pep.rank(e.version) <= pep.rank(f.version)
  }

  ghost predicate IsHighest(pep: Pep, fits: iset<Published>, e: Published) {
    e in fits && forall f :: f in fits ==> pep.rank(f.version) <= pep.rank(e.version)
  }

  /** The published versions below that the line's own range admits. */
  ghost function Range(w: World, s: Stage): iset<Published>
    requires Below(s).Some?
  {
    var below := Below(s).value;
    iset e | e in w.Entries(below) && Accepts(w.pep, ConstraintOn(w.own(s), Family(below)), e.version)
  }

  /** The published versions above that take the line's declared version. */
  ghost function Takers(w: World, s: Stage): iset<Published>
    requires AboveOf(s).Some?
  {
    iset e | e in w.Entries(AboveOf(s).value) && Takes(w, s, e, w.declared(s))
  }

  /** This commit's stage below counts at a push, where the range admits it and no
      release has its version yet. */
  ghost predicate TriesOurs(w: World, s: Stage, publishedOnly: bool)
    requires Below(s).Some?
  {
    var below := Below(s).value;
    && !publishedOnly && Accepts(w.pep, ConstraintOn(w.own(s), Family(below)), w.declared(below))
    && forall r :: r in w.releases && Publishes(w.pep, below, r) ==> r.tag != Prefix(below) + w.declared(below)
  }

  lemma EndsAreExtreme(pep: Pep, entries: seq<Published>, fits: iset<Published>)
    requires Ascending(pep, entries) && forall e :: e in fits <==> e in entries
    ensures forall e :: e in Ends(entries) ==> e in fits && (IsLowest(pep, fits, e) || IsHighest(pep, fits, e))
    ensures entries == [] ==> fits == iset{}
    ensures entries != [] ==>
              && Ends(entries) != []
              && IsLowest(pep, fits, Ends(entries)[0]) && IsHighest(pep, fits, Ends(entries)[|Ends(entries)| - 1])
  {
    if entries != [] {
      EndsSpan(pep, entries);
      hide Ascending;
      assert entries[0] in entries && entries[|entries| - 1] in entries;
    }
  }

  lemma EndsAreSubjects(pep: Pep, entries: seq<Published>, fits: iset<Published>)
    requires Ascending(pep, entries) && forall e :: e in fits <==> e in entries
    ensures forall e :: e in Ends(entries) ==> LowEnd(pep, fits, Of(e)) || HighEnd(pep, fits, Of(e))
    ensures entries == [] ==> fits == iset{}
    ensures entries != [] ==>
              && Ends(entries) != []
              && LowEnd(pep, fits, Of(Ends(entries)[0])) && HighEnd(pep, fits, Of(Ends(entries)[|Ends(entries)| - 1]))
  {
    hide Ends;
    hide IsLowest;
    hide IsHighest;
    hide Ascending;
    EndsAreExtreme(pep, entries, fits);
  }

  lemma SubjectsSpan(w: World, neighbour: Stage, entries: seq<Published>, fits: iset<Published>, ours: bool,
                     rows: seq<Row>)
    requires Ascending(w.pep, entries) && forall e :: e in fits <==> e in entries
    requires |rows| == |Ends(entries)| + if ours then 1 else 0
    requires forall i :: 0 <= i < |Ends(entries)| ==> rows[i].subject == Of(Ends(entries)[i])
    requires ours ==> rows[|rows| - 1].subject == Here(w, neighbour)
    ensures Spans(w, neighbour, fits, ours, rows)
  {
    hide Ascending;
    hide LowEnd;
    hide HighEnd;
    hide Ends;
    var ends := Ends(entries);
    EndsAreSubjects(w.pep, entries, fits);
    forall row | row in rows
      ensures || (ours && Ours(w, neighbour, row.subject))
              || LowEnd(w.pep, fits, row.subject) || HighEnd(w.pep, fits, row.subject)
    {
      var i :| 0 <= i < |rows| && rows[i] == row;
      if i < |ends| {
        assert ends[i] in ends;
      }
    }
    if ours {
      assert rows[|rows| - 1] in rows;
    }
    if entries != [] {
      assert rows[0] in rows && rows[|ends| - 1] in rows;
    }
  }

  lemma OursIsTried(w: World, s: Stage, publishedOnly: bool)
    requires Below(s).Some?
    ensures var below := Below(s).value;
            TriesOurs(w, s, publishedOnly)
            <==> (!publishedOnly && Accepts(w.pep, ConstraintOn(w.own(s), Family(below)), w.declared(below))
                  && w.declared(below) !in Versions(w.pep, below, w.releases))
  {
    hide ConstraintOn;
    hide Accepts;
    var below := Below(s).value;
    var prefix := Prefix(below);
    hide Prefix;
    forall r | r in w.releases && Publishes(w.pep, below, r)
      ensures r.tag == prefix + w.declared(below) <==> r.tag[|prefix|..] == w.declared(below)
    {
      assert r.tag == r.tag[..|prefix|] + r.tag[|prefix|..];
      assert (prefix + w.declared(below))[|prefix|..] == w.declared(below);
    }
  }

  lemma DownRowsSpan(w: World, publishedOnly: bool, found: seq<Combination>, s: Stage, rows: seq<Row>)
    requires Below(s).Some? && DownRows(w, s, publishedOnly, found, rows)
    ensures Spans(w, Below(s).value, Range(w, s), TriesOurs(w, s, publishedOnly), rows)
  {
    hide Candidates;
    hide Accepts;
    hide ConstraintOn;
    hide RowShows;
    hide DownTriple;
    hide Spans;
    hide Ascending;
    var below := Below(s).value;
    var range := Satisfying(w.pep, w.Entries(below), ConstraintOn(w.own(s), Family(below)));
    OursIsTried(w, s, publishedOnly);
    CandidatesAscend(w.pep, below, w.releases);
    FilterAscends(w.pep, w.Entries(below), ConstraintOn(w.own(s), Family(below)));
    hide Ends;
    hide TriesOurs;
    hide Versions;
    assert forall i :: 0 <= i < |Ends(range)| ==> rows[i].subject == Of(Ends(range)[i]);
    SubjectsSpan(w, below, range, Range(w, s), TriesOurs(w, s, publishedOnly), rows);
  }

  lemma UpRowsSpan(w: World, publishedOnly: bool, found: seq<Combination>, s: Stage, rows: seq<Row>)
    requires AboveOf(s).Some? && UpRows(w, s, publishedOnly, found, rows)
    ensures Spans(w, AboveOf(s).value, Takers(w, s), !publishedOnly, rows)
  {
    hide Candidates;
    hide Accepts;
    hide ConstraintOn;
    hide RowShows;
    hide UpTriple;
    hide Spans;
    hide Ascending;
    var above := AboveOf(s).value;
    var takers := Accepting(w.pep, w.Entries(above), Family(s), w.declared(s));
    CandidatesAscend(w.pep, above, w.releases);
    AcceptingAscends(w.pep, w.Entries(above), Family(s), w.declared(s));
    hide Ends;
    assert forall i :: 0 <= i < |Ends(takers)| ==> rows[i].subject == Of(Ends(takers)[i]);
    SubjectsSpan(w, above, takers, Takers(w, s), !publishedOnly, rows);
  }

  lemma {:induction false} AcceptingAscends(pep: Pep, entries: seq<Published>, family: string, version: string)
    requires Ascending(pep, entries)
    ensures Ascending(pep, Accepting(pep, entries, family, version))
  {
    if entries != [] {
      var front, last := entries[..|entries| - 1], entries[|entries| - 1];
      assert Ascending(pep, front) && Ascending(pep, [last]);
      assert forall e :: e in front ==> pep.rank(e.version) <= pep.rank(last.version);
      hide Ascending;
      hide Accepts;
      hide ConstraintOn;
      AcceptingAscends(pep, front, family, version);
      AscendingParts(pep, Accepting(pep, front, family, version), [last]);
    }
  }

  // ---- the whole plan ----------------------------------------------------------------------

  ghost predicate DownIs(w: World, publishedOnly: bool, found: seq<Combination>, s: Stage, rows: seq<Row>)
    requires Below(s).Some?
  {
    && Spans(w, Below(s).value, Range(w, s), TriesOurs(w, s, publishedOnly), rows)
    && forall row :: row in rows ==> BuildsDown(w, publishedOnly, Checkout, found, s, row)
  }

  ghost predicate UpIs(w: World, publishedOnly: bool, found: seq<Combination>, s: Stage, rows: seq<Row>)
    requires AboveOf(s).Some?
  {
    && Spans(w, AboveOf(s).value, Takers(w, s), !publishedOnly, rows)
    && forall row :: row in rows ==> BuildsUp(w, publishedOnly, Checkout, found, s, row)
  }

  lemma DownRowsAre(w: World, publishedOnly: bool, found: seq<Combination>, s: Stage, rows: seq<Row>)
    requires Below(s).Some? && WellFormed(w, publishedOnly, found) && DownRows(w, s, publishedOnly, found, rows)
    ensures DownIs(w, publishedOnly, found, s, rows)
  {
    hide RowShows;
    hide DownTriple;
    hide DownSubjects;
    hide BuildsDown;
    hide Spans;
    hide WellFormed;
    DownRowsSpan(w, publishedOnly, found, s, rows);
    forall row | row in rows
      ensures BuildsDown(w, publishedOnly, Checkout, found, s, row)
    {
      var i :| 0 <= i < |rows| && rows[i] == row;
      DownRowBuilds(w, publishedOnly, found, s, row);
    }
  }

  lemma UpRowsAre(w: World, publishedOnly: bool, found: seq<Combination>, s: Stage, rows: seq<Row>)
    requires AboveOf(s).Some? && WellFormed(w, publishedOnly, found) && UpRows(w, s, publishedOnly, found, rows)
    ensures UpIs(w, publishedOnly, found, s, rows)
  {
    hide RowShows;
    hide UpTriple;
    hide UpSubjects;
    hide BuildsUp;
    hide Spans;
    hide WellFormed;
    UpRowsSpan(w, publishedOnly, found, s, rows);
    forall row | row in rows
      ensures BuildsUp(w, publishedOnly, Checkout, found, s, row)
    {
      var i :| 0 <= i < |rows| && rows[i] == row;
      UpRowBuilds(w, publishedOnly, found, s, row);
    }
  }

  /** Every row of a plan, and every combination it asks for, by the published
      releases alone. */
  lemma PlanIs(w: World, publishedOnly: bool, plan: Plan)
    requires PlanOk(w, publishedOnly, plan)
    ensures DownIs(w, publishedOnly, plan.combinations, Sdk, plan.down[Sdk])
    ensures DownIs(w, publishedOnly, plan.combinations, Workspace, plan.down[Workspace])
    ensures UpIs(w, publishedOnly, plan.combinations, Workspace, plan.up[Workspace])
    ensures UpIs(w, publishedOnly, plan.combinations, Tools, plan.up[Tools])
    ensures forall c :: c in plan.combinations ==> (c.consistent <==> HoldsTogether(w, c.triple))
  {
    hide DownRows;
    hide UpRows;
    hide DownIs;
    hide UpIs;
    DownRowsAre(w, publishedOnly, plan.combinations, Sdk, plan.down[Sdk]);
    DownRowsAre(w, publishedOnly, plan.combinations, Workspace, plan.down[Workspace]);
    UpRowsAre(w, publishedOnly, plan.combinations, Workspace, plan.up[Workspace]);
    UpRowsAre(w, publishedOnly, plan.combinations, Tools, plan.up[Tools]);
    forall c | c in plan.combinations
      ensures c.consistent <==> HoldsTogether(w, c.triple)
    {
      var i :| 0 <= i < |plan.combinations| && plan.combinations[i] == c;
      HoldsTogetherIs(w, c.triple);
    }
  }

  // ---- what is published, and what it requires ---------------------------------------------

  /** A release of this line: published, tagged with a version, and with a meta file. */
  ghost predicate Releases(pep: Pep, s: Stage, r: Release, e: Published) {
    !r.draft && r.tag == Prefix(s) + e.version == e.tag && pep.valid(e.version) && r.meta == Some(e.needs)
  }

  /** The candidates of a line are exactly its releases that say what they require. */
  lemma {:induction false} CandidatesExactly(pep: Pep, s: Stage, releases: seq<Release>, e: Published)
    ensures e in Candidates(pep, s, releases) <==> exists r :: r in releases && Releases(pep, s, r, e)
  {
    if releases != [] {
      var r, rest := releases[0], Candidates(pep, s, releases[1..]);
      CandidatesExactly(pep, s, releases[1..], e);
      OneRelease(pep, s, r, e);
      hide Releases;
      if Publishes(pep, s, r) && r.meta.Some? {
        var one := Published(r.tag[|Prefix(s)|..], r.tag, r.meta.value);
        InsertedExactly(pep, one, rest, e);
      }
      hide Insert;
      hide Publishes;
      assert forall x :: x in releases <==> x == r || x in releases[1..];
    }
  }

  lemma OneRelease(pep: Pep, s: Stage, r: Release, e: Published)
    ensures Releases(pep, s, r, e)
            <==> Publishes(pep, s, r) && r.meta.Some? && e == Published(r.tag[|Prefix(s)|..], r.tag, r.meta.value)
  {
    var n := |Prefix(s)|;
    if Publishes(pep, s, r) {
      assert r.tag == r.tag[..n] + r.tag[n..];
    }
    if Releases(pep, s, r, e) {
      assert r.tag[..n] == Prefix(s) && r.tag[n..] == e.version;
    }
  }

  lemma InsertedExactly(pep: Pep, one: Published, entries: seq<Published>, e: Published)
    ensures e in Insert(pep, one, entries) <==> e == one || e in entries
  {
    var r := Insert(pep, one, entries);
    hide Insert;
    assert e in r <==> e in multiset(r);
    assert e in entries <==> e in multiset(entries);
  }

  /** The family itself, or behind a host and a slash. */
  ghost predicate IsFamily(key: string, family: string) {
    key == family || exists host: string :: key == host + "/" + family
  }

  /** The constraint is the one of the first key that names the family. */
  lemma {:induction false} ConstraintExactly(needs: Requires, family: string, c: string)
    ensures ConstraintOn(needs, family) == Some(c)
            <==> exists i :: 0 <= i < |needs| && needs[i].1 == c && IsFamily(needs[i].0, family)
                             && forall j :: 0 <= j < i ==> !IsFamily(needs[j].0, family)
  {
    if needs != [] {
      FamilyIs(needs[0].0, family);
      hide IsFamily;
      hide EndsWith;
      if !IsFamily(needs[0].0, family) {
        ConstraintExactly(needs[1..], family, c);
        if ConstraintOn(needs[1..], family) == Some(c) {
          var i :| 0 <= i < |needs[1..]| && needs[1..][i].1 == c && IsFamily(needs[1..][i].0, family)
                   && forall j :: 0 <= j < i ==> !IsFamily(needs[1..][j].0, family);
          assert forall j :: 0 < j < i + 1 ==> needs[j] == needs[1..][j - 1];
          assert needs[i + 1] == needs[1..][i];
        }
        if i :| 0 <= i < |needs| && needs[i].1 == c && IsFamily(needs[i].0, family)
                && forall j :: 0 <= j < i ==> !IsFamily(needs[j].0, family) {
          assert needs[1..][i - 1] == needs[i];
          assert forall j :: 0 <= j < i - 1 ==> needs[1..][j] == needs[j + 1];
        }
      }
    }
  }

  lemma FamilyIs(key: string, family: string)
    ensures IsFamily(key, family) <==> key == family || EndsWith(key, "/" + family)
  {
    var tail := "/" + family;
    if EndsWith(key, tail) {
      assert key == key[..|key| - |tail|] + "/" + family;
    }
    if host: string :| key == host + "/" + family {
      assert key[|key| - |tail|..] == tail;
    }
  }

  // ---- the chain below a release -------------------------------------------------------------

  /** The newest published version of the stage below that these requirements admit. */
  ghost predicate NewestFor(pep: Pep, releases: seq<Release>, needs: Requires, lower: Stage, e: Option<Published>) {
    var constraint := ConstraintOn(needs, Family(lower));
    var fits := iset f | f in Candidates(pep, lower, releases) && Accepts(pep, constraint, f.version);
    if e.None? then fits == iset{} else IsHighest(pep, fits, e.value)
  }

  lemma NewestBelowIs(pep: Pep, releases: seq<Release>, needs: Requires, lower: Stage)
    ensures NewestFor(pep, releases, needs, lower, NewestBelow(pep, releases, needs, lower))
  {
    hide Candidates;
    hide Accepts;
    hide Ascending;
    hide ConstraintOn;
    hide Satisfying;
    var entries, constraint := Candidates(pep, lower, releases), ConstraintOn(needs, Family(lower));
    var all := Satisfying(pep, entries, constraint);
    CandidatesAscend(pep, lower, releases);
    if all != [] {
      var newest := all[|all| - 1];
      assert newest in all;
      forall f | f in entries && Accepts(pep, constraint, f.version)
        ensures pep.rank(f.version) <= pep.rank(newest.version)
      {
        var k :| 0 <= k < |entries| && entries[k] == f;
        LastIsNewest(pep, entries, constraint, k);
      }
    } else {
      assert forall f :: f in entries && Accepts(pep, constraint, f.version) ==> f in all;
    }
  }

  /** The chain a release resolves to, link by link: the newest below that the
      release admits, and the newest below that one that it admits in turn. */
  lemma ChainIs(pep: Pep, releases: seq<Release>, own: Requires)
    ensures var chain := Chain(pep, releases, Workspace, own);
            if chain.None? then NewestFor(pep, releases, own, Tools, None)
            else chain.value.Keys == {Tools} && NewestFor(pep, releases, own, Tools, Some(chain.value[Tools]))
    ensures var chain := Chain(pep, releases, Sdk, own);
            if chain.None? then
              NewestFor(pep, releases, own, Workspace, None)
              || exists e :: NewestFor(pep, releases, own, Workspace, Some(e))
                             && NewestFor(pep, releases, e.needs, Tools, None)
            else
              && chain.value.Keys == {Workspace, Tools}
              && NewestFor(pep, releases, own, Workspace, Some(chain.value[Workspace]))
              && NewestFor(pep, releases, chain.value[Workspace].needs, Tools, Some(chain.value[Tools]))
    ensures Chain(pep, releases, Tools, own) == Some(map[])
  {
    NewestBelowIs(pep, releases, own, Workspace);
    NewestBelowIs(pep, releases, own, Tools);
    var workspace := NewestBelow(pep, releases, own, Workspace);
    if workspace.Some? {
      NewestBelowIs(pep, releases, workspace.value.needs, Tools);
    }
    ChainOfSdk(pep, releases, own);
    ChainOfWorkspace(pep, releases, own);
    OneLink(pep, releases, Tools, own);
    hide NewestFor;
    hide NewestBelow;
    hide Chain;
  }
}
