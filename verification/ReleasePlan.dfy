/** The plan of a push and the gate of a tag (scripts/release_readiness.py):
    which combinations of SDK, workspace and tools are built, and why. */
module ReleasePlan {
  import opened Wrappers
  import opened ReleaseWorld

  /** The published world and what this commit declares and requires itself. */
  datatype World = World(pep: Pep, releases: seq<Release>, declared: Stage -> string, own: Stage -> Requires)
  {
    function Entries(s: Stage): seq<Published> { Candidates(pep, s, releases) }
  }

  datatype Source = Checkout | FromRelease | Released

  /** One stage of a combination: which package, and where it is from. */
  datatype Piece = Piece(source: Source, version: string, tag: string)

  datatype Triple = Triple(sdk: Piece, workspace: Piece, tools: Piece)
  {
    function At(s: Stage): Piece {
      match s case Sdk => sdk case Workspace => workspace case Tools => tools
    }

    function Checkouts(): nat {
      (if sdk.source.Checkout? then 1 else 0) + (if workspace.source.Checkout? then 1 else 0)
      + (if tools.source.Checkout? then 1 else 0)
    }
  }

  datatype Id = WholeCheckout | Numbered(n: nat) | LineStart

  datatype Combination = Combination(id: Id, triple: Triple, consistent: bool, compare: bool)

  datatype Row = Row(subject: Piece, combination: Option<Id>, needed: bool)

  function Here(w: World, s: Stage): Piece {
    Piece(Checkout, w.declared(s), "")
  }

  function Of(e: Published): Piece {
    Piece(FromRelease, e.version, e.tag)
  }

  // ---- does a triple hold together ---------------------------------------------------

  /** The candidate of a version, as a dictionary by version has it: the last one. */
  function ByVersion(entries: seq<Published>, version: string): Option<Published> {
    if entries == [] then None
    else
      var last := entries[|entries| - 1];
      if last.version == version then Some(last) else ByVersion(entries[..|entries| - 1], version)
  }

  /** What the package a stage names requires of the stage below it. */
  function RequiredBelow(w: World, s: Stage, piece: Piece): Option<string>
    requires Below(s).Some?
  {
    var family := Family(Below(s).value);
    if !piece.source.FromRelease? then ConstraintOn(w.own(s), family)
    else
      var e := ByVersion(w.Entries(s), piece.version);
      if e.None? then None else ConstraintOn(e.value.needs, family)
  }

  /** Every stage's own constraint admits the one below it. */
  predicate Consistent(w: World, t: Triple) {
    && Accepts(w.pep, RequiredBelow(w, Sdk, t.sdk), t.workspace.version)
    && Accepts(w.pep, RequiredBelow(w, Workspace, t.workspace), t.tools.version)
  }

  // ---- which triple tries what -----------------------------------------------------------

  function ToolsUnder(w: World, workspace: Piece, publishedOnly: bool): Option<Piece> {
    var newest := Newest(Satisfying(w.pep, w.Entries(Tools), RequiredBelow(w, Workspace, workspace)));
    if newest.Some? then Some(Of(newest.value))
    else if publishedOnly then None else Some(Here(w, Tools))
  }

  function SdkOver(w: World, workspace: Piece, publishedOnly: bool): Option<Piece> {
    var newest := NewestAccepting(w.pep, w.Entries(Sdk), Family(Workspace), workspace.version);
    if newest.Some? then Some(Of(newest.value))
    else if publishedOnly then None else Some(Here(w, Sdk))
  }

  /** The triple that tries a stage of this commit over one below it. */
  function DownTriple(w: World, s: Stage, below: Piece, publishedOnly: bool): Option<Triple>
    requires Below(s).Some?
  {
    if s.Sdk? then
      var tools := ToolsUnder(w, below, publishedOnly);
      if tools.None? then None else Some(Triple(Here(w, Sdk), below, tools.value))
    else
      var sdk := SdkOver(w, Here(w, Workspace), publishedOnly);
      if sdk.None? then None else Some(Triple(sdk.value, Here(w, Workspace), below))
  }

  /** The triple that tries a stage of this commit under one above it. */
  function UpTriple(w: World, s: Stage, above: Piece, publishedOnly: bool): Option<Triple>
    requires AboveOf(s).Some?
  {
    if s.Workspace? then
      var tools := ToolsUnder(w, Here(w, Workspace), publishedOnly);
      if tools.None? then None else Some(Triple(above, Here(w, Workspace), tools.value))
    else
      var sdk := SdkOver(w, above, publishedOnly);
      if sdk.None? then None else Some(Triple(sdk.value, above, Here(w, Tools)))
  }

  // ---- the combinations asked for ----------------------------------------------------------

  /** What identifies a triple: where each package is from, and its version. */
  type Key = ((Source, string), (Source, string), (Source, string))

  function KeyOf(t: Triple): Key {
    ((t.sdk.source, t.sdk.version), (t.workspace.source, t.workspace.version), (t.tools.source, t.tools.version))
  }

  predicate PieceOk(w: World, s: Stage, piece: Piece) {
    match piece.source
    case Checkout => piece == Here(w, s)
    case FromRelease => piece.tag == Prefix(s) + piece.version
    case Released => false
  }

  predicate TripleOk(w: World, t: Triple) {
    PieceOk(w, Sdk, t.sdk) && PieceOk(w, Workspace, t.workspace) && PieceOk(w, Tools, t.tools)
  }

  lemma KeyIdentifies(w: World, a: Triple, b: Triple)
    requires TripleOk(w, a) && TripleOk(w, b) && KeyOf(a) == KeyOf(b)
    ensures a == b
  {
  }

  function IdAt(t: Triple, n: nat): Id {
    if t.Checkouts() == 3 then WholeCheckout else Numbered(n + 1)
  }

  ghost predicate WellFormed(w: World, publishedOnly: bool, found: seq<Combination>) {
    && (forall i :: 0 <= i < |found| ==>
          && TripleOk(w, found[i].triple) && found[i].id == IdAt(found[i].triple, i)
          && found[i].consistent == Consistent(w, found[i].triple)
          && (publishedOnly ==> found[i].triple.Checkouts() == 1))
    && forall i, k :: 0 <= i < k < |found| ==> found[i].triple != found[k].triple
  }

  /** An identifier never names two combinations: one is the checkout alone, and the
      others are numbered by their place. */
  lemma IdsAreDistinct(w: World, publishedOnly: bool, found: seq<Combination>, i: nat, k: nat)
    requires WellFormed(w, publishedOnly, found) && i < k < |found|
    ensures found[i].id != found[k].id
    ensures found[i].id == WholeCheckout
            <==> found[i].triple == Triple(Here(w, Sdk), Here(w, Workspace), Here(w, Tools))
    ensures found[i].id != WholeCheckout ==> found[i].id == Numbered(i + 1)
  {
    var t := found[i].triple;
    assert t.sdk.source.Released? || t.sdk.source.FromRelease? || t.sdk == Here(w, Sdk);
  }

  /** A row points at the combination built for its triple, and is required
      exactly when that one holds together. */
  ghost predicate RowShows(found: seq<Combination>, row: Row, t: Option<Triple>) {
    if t.None? then row.combination.None? && !row.needed
    else exists i :: 0 <= i < |found| && found[i].triple == t.value
                     && row.combination == Some(found[i].id) && row.needed == found[i].consistent
  }

  lemma RowStays(found: seq<Combination>, more: seq<Combination>, row: Row, t: Option<Triple>)
    requires RowShows(found, row, t) && found <= more
    ensures RowShows(more, row, t)
  {
    if t.Some? {
      var i :| 0 <= i < |found| && found[i].triple == t.value && row.combination == Some(found[i].id)
               && row.needed == found[i].consistent;
      assert more[i] == found[i];
    }
  }

  // ---- the rows --------------------------------------------------------------------------

  /** The lowest and the highest of a range. */
  function Ends(entries: seq<Published>): seq<Published> {
    if |entries| <= 1 then entries else [entries[0], entries[|entries| - 1]]
  }

  function Pieces(entries: seq<Published>): (r: seq<Piece>)
    ensures |r| == |entries| && forall i :: 0 <= i < |r| ==> r[i] == Of(entries[i])
  {
    seq(|entries|, i requires 0 <= i < |entries| => Of(entries[i]))
  }

  /** Every published version of a line, with a meta file or without. */
  function Versions(pep: Pep, s: Stage, releases: seq<Release>): set<string> {
    set r | r in releases && Publishes(pep, s, r) :: r.tag[|Prefix(s)|..]
  }

  /** What a line is tried over: the ends of the range it declares, and at a push
      the stage below as this commit has it, unless it is published already. */
  function DownSubjects(w: World, s: Stage, publishedOnly: bool): seq<Piece>
    requires Below(s).Some?
  {
    var below := Below(s).value;
    var constraint := ConstraintOn(w.own(s), Family(below));
    Pieces(Ends(Satisfying(w.pep, w.Entries(below), constraint)))
    + if !publishedOnly && Accepts(w.pep, constraint, w.declared(below))
         && w.declared(below) !in Versions(w.pep, below, w.releases)
      then [Here(w, below)] else []
  }

  /** What a line is tried under: the ends of the versions above that accept it,
      and at a push the stage above as this commit has it. */
  function UpSubjects(w: World, s: Stage, publishedOnly: bool): seq<Piece>
    requires AboveOf(s).Some?
  {
    var above := AboveOf(s).value;
    Pieces(Ends(Accepting(w.pep, w.Entries(above), Family(s), w.declared(s))))
    + if publishedOnly then [] else [Here(w, above)]
  }

  /** The ends of a range are its lowest and its highest version. */
  lemma EndsSpan(pep: Pep, entries: seq<Published>)
    requires Ascending(pep, entries) && entries != []
    ensures var ends := Ends(entries);
            && 1 <= |ends| <= 2 && (|ends| == 2 <==> |entries| > 1)
            && forall e :: e in entries ==>
                 pep.rank(ends[0].version) <= pep.rank(e.version) <= pep.rank(ends[|ends| - 1].version)
  {
    forall e | e in entries
      ensures pep.rank(entries[0].version) <= pep.rank(e.version) <= pep.rank(entries[|entries| - 1].version)
    {
      var k :| 0 <= k < |entries| && entries[k] == e;
    }
  }

  /** A line is tried over the ends of the range it declares, of all that is published. */
  lemma TriedOverTheEnds(w: World, s: Stage, e: Published)
    requires Below(s).Some?
    requires e in w.Entries(Below(s).value)
             && Accepts(w.pep, ConstraintOn(w.own(s), Family(Below(s).value)), e.version)
    ensures var subjects := DownSubjects(w, s, true);
            subjects != []
            && w.pep.rank(subjects[0].version) <= w.pep.rank(e.version) <= w.pep.rank(subjects[|subjects| - 1].version)
  {
    var below := Below(s).value;
    var constraint := ConstraintOn(w.own(s), Family(below));
    var range := Satisfying(w.pep, w.Entries(below), constraint);
    CandidatesAscend(w.pep, below, w.releases);
    FilterAscends(w.pep, w.Entries(below), constraint);
    assert e in range;
    EndsSpan(w.pep, range);
    hide Ends;
    assert DownSubjects(w, s, true) == Pieces(Ends(range));
  }

  /** The SDK above is the newest published one that takes the workspace, and
      this commit's, or none, only where none does. */
  lemma SdkOverIsNewest(w: World, workspace: Piece, publishedOnly: bool)
    ensures var sdk := SdkOver(w, workspace, publishedOnly);
            if forall e :: e in w.Entries(Sdk) ==>
              !Accepts(w.pep, ConstraintOn(e.needs, Family(Workspace)), workspace.version)
            then sdk == if publishedOnly then None else Some(Here(w, Sdk))
            else
              && sdk.Some? && sdk.value.source.FromRelease?
              && forall e :: e in w.Entries(Sdk) ==>
                   Accepts(w.pep, ConstraintOn(e.needs, Family(Workspace)), workspace.version) ==>
                     w.pep.rank(e.version) <= w.pep.rank(sdk.value.version)
  {
    hide Candidates;
    hide Accepts;
    hide ConstraintOn;
    hide NewestAccepting;
    hide Ascending;
    CandidatesAscend(w.pep, Sdk, w.releases);
    NewestAcceptingIsNewest(w.pep, w.Entries(Sdk), Family(Workspace), workspace.version);
  }

  /** The tools below are the newest published ones the workspace admits, and this
      commit's, or none, only where it admits none. */
  lemma ToolsUnderAreNewest(w: World, workspace: Piece, publishedOnly: bool, e: Published)
    requires e in w.Entries(Tools) && Accepts(w.pep, RequiredBelow(w, Workspace, workspace), e.version)
    ensures var tools := ToolsUnder(w, workspace, publishedOnly);
            tools.Some? && tools.value.source.FromRelease? && w.pep.rank(e.version) <= w.pep.rank(tools.value.version)
  {
    hide RequiredBelow;
    hide Candidates;
    hide Accepts;
    hide Ascending;
    CandidatesAscend(w.pep, Tools, w.releases);
    var k :| 0 <= k < |w.Entries(Tools)| && w.Entries(Tools)[k] == e;
    LastIsNewest(w.pep, w.Entries(Tools), RequiredBelow(w, Workspace, workspace), k);
    hide Satisfying;
  }

  lemma {:induction false} TagsAreTheirs(pep: Pep, s: Stage, releases: seq<Release>)
    ensures forall e :: e in Candidates(pep, s, releases) ==> e.tag == Prefix(s) + e.version
  {
    if releases != [] {
      TagsAreTheirs(pep, s, releases[1..]);
      var r := releases[0];
      if Publishes(pep, s, r) && r.meta.Some? {
        var e := Published(r.tag[|Prefix(s)|..], r.tag, r.meta.value);
        assert r.tag == r.tag[..|Prefix(s)|] + r.tag[|Prefix(s)|..];
        forall f | f in Insert(pep, e, Candidates(pep, s, releases[1..]))
          ensures f.tag == Prefix(s) + f.version
        {
          assert f in multiset(Insert(pep, e, Candidates(pep, s, releases[1..])));
        }
      }
    }
  }

  lemma {:induction false} NewestIsThere(pep: Pep, entries: seq<Published>, family: string, version: string)
    ensures var newest := NewestAccepting(pep, entries, family, version);
            newest.Some? ==> newest.value in entries && Accepts(pep, ConstraintOn(newest.value.needs, family), version)
  {
    if entries != [] {
      NewestIsThere(pep, entries[..|entries| - 1], family, version);
    }
  }

  predicate TripleFits(w: World, publishedOnly: bool, t: Option<Triple>) {
    t.Some? ==> TripleOk(w, t.value) && (publishedOnly ==> t.value.Checkouts() == 1)
  }

  lemma ToolsFit(w: World, workspace: Piece, publishedOnly: bool)
    ensures var tools := ToolsUnder(w, workspace, publishedOnly);
            tools.Some? ==> PieceOk(w, Tools, tools.value) && (publishedOnly ==> tools.value.source.FromRelease?)
  {
    TagsAreTheirs(w.pep, Tools, w.releases);
  }

  lemma SdkFits(w: World, workspace: Piece, publishedOnly: bool)
    ensures var sdk := SdkOver(w, workspace, publishedOnly);
            sdk.Some? ==> PieceOk(w, Sdk, sdk.value) && (publishedOnly ==> sdk.value.source.FromRelease?)
  {
    TagsAreTheirs(w.pep, Sdk, w.releases);
    NewestIsThere(w.pep, w.Entries(Sdk), Family(Workspace), workspace.version);
  }

  lemma EndsAreSome(entries: seq<Published>)
    ensures forall e :: e in Ends(entries) ==> e in entries
  {
  }

  lemma SubjectsFit(w: World, s: Stage, publishedOnly: bool)
    ensures Below(s).Some? ==> forall piece :: piece in DownSubjects(w, s, publishedOnly) ==>
              PieceOk(w, Below(s).value, piece) && (publishedOnly ==> piece.source.FromRelease?)
    ensures AboveOf(s).Some? ==> forall piece :: piece in UpSubjects(w, s, publishedOnly) ==>
              PieceOk(w, AboveOf(s).value, piece) && (publishedOnly ==> piece.source.FromRelease?)
  {
    hide Candidates;
    hide Ends;
    hide Satisfying;
    hide Accepting;
    if Below(s).Some? {
      TagsAreTheirs(w.pep, Below(s).value, w.releases);
      EndsAreSome(Satisfying(w.pep, w.Entries(Below(s).value), ConstraintOn(w.own(s), Family(Below(s).value))));
    }
    if AboveOf(s).Some? {
      TagsAreTheirs(w.pep, AboveOf(s).value, w.releases);
      EndsAreSome(Accepting(w.pep, w.Entries(AboveOf(s).value), Family(s), w.declared(s)));
    }
  }

  /** Under the tag rule a neighbour is a published one, so the line itself is the
      one checkout of its triple. */
  lemma DownFits(w: World, s: Stage, publishedOnly: bool)
    requires Below(s).Some?
    ensures forall below :: below in DownSubjects(w, s, publishedOnly) ==>
              TripleFits(w, publishedOnly, DownTriple(w, s, below, publishedOnly))
  {
    hide DownSubjects;
    hide UpSubjects;
    hide ToolsUnder;
    hide SdkOver;
    SubjectsFit(w, s, publishedOnly);
    forall below | below in DownSubjects(w, s, publishedOnly)
      ensures TripleFits(w, publishedOnly, DownTriple(w, s, below, publishedOnly))
    {
      ToolsFit(w, below, publishedOnly);
      SdkFits(w, Here(w, Workspace), publishedOnly);
    }
  }

  lemma UpFits(w: World, s: Stage, publishedOnly: bool)
    requires AboveOf(s).Some?
    ensures forall above :: above in UpSubjects(w, s, publishedOnly) ==>
              TripleFits(w, publishedOnly, UpTriple(w, s, above, publishedOnly))
  {
    hide DownSubjects;
    hide UpSubjects;
    hide ToolsUnder;
    hide SdkOver;
    SubjectsFit(w, s, publishedOnly);
    forall above | above in UpSubjects(w, s, publishedOnly)
      ensures TripleFits(w, publishedOnly, UpTriple(w, s, above, publishedOnly))
    {
      ToolsFit(w, Here(w, Workspace), publishedOnly);
      SdkFits(w, above, publishedOnly);
    }
  }

  ghost predicate DownRows(w: World, s: Stage, publishedOnly: bool, found: seq<Combination>, rows: seq<Row>)
    requires Below(s).Some?
  {
    var subjects := DownSubjects(w, s, publishedOnly);
    |rows| == |subjects| && forall i :: 0 <= i < |rows| ==>
      rows[i].subject == subjects[i] && RowShows(found, rows[i], DownTriple(w, s, subjects[i], publishedOnly))
  }

  ghost predicate UpRows(w: World, s: Stage, publishedOnly: bool, found: seq<Combination>, rows: seq<Row>)
    requires AboveOf(s).Some?
  {
    var subjects := UpSubjects(w, s, publishedOnly);
    |rows| == |subjects| && forall i :: 0 <= i < |rows| ==>
      rows[i].subject == subjects[i] && RowShows(found, rows[i], UpTriple(w, s, subjects[i], publishedOnly))
  }

  /** The dictionary has every combination under its triple, and no other. */
  ghost predicate Indexed(found: seq<Combination>, byTriple: map<Key, Combination>) {
    && (forall i :: 0 <= i < |found| ==>
          KeyOf(found[i].triple) in byTriple && byTriple[KeyOf(found[i].triple)] == found[i] && !found[i].compare)
    && forall k :: k in byTriple ==> byTriple[k] in found && KeyOf(byTriple[k].triple) == k
  }

  lemma Indexes(found: seq<Combination>, byTriple: map<Key, Combination>, c: Combination)
    requires Indexed(found, byTriple) && KeyOf(c.triple) !in byTriple && !c.compare
    ensures Indexed(found + [c], byTriple[KeyOf(c.triple) := c])
    ensures forall i :: 0 <= i < |found| ==> found[i].triple != c.triple
  {
    hide KeyOf;
  }

  lemma OneMoreFound(w: World, publishedOnly: bool, found: seq<Combination>, t: Triple)
    requires WellFormed(w, publishedOnly, found) && TripleOk(w, t) && (publishedOnly ==> t.Checkouts() == 1)
    requires forall i :: 0 <= i < |found| ==> found[i].triple != t
    ensures WellFormed(w, publishedOnly, found + [Combination(IdAt(t, |found|), t, Consistent(w, t), false)])
  {
    hide TripleOk;
    hide Consistent;
    hide IdAt;
  }

  lemma Known(w: World, publishedOnly: bool, found: seq<Combination>, byTriple: map<Key, Combination>, t: Triple)
    requires WellFormed(w, publishedOnly, found) && Indexed(found, byTriple) && TripleOk(w, t) && KeyOf(t) in byTriple
    ensures byTriple[KeyOf(t)] in found && byTriple[KeyOf(t)].triple == t
  {
    var c := byTriple[KeyOf(t)];
    var i :| 0 <= i < |found| && found[i] == c;
    KeyIdentifies(w, c.triple, t);
  }

  class Planner {
    const w: World
    const publishedOnly: bool
    var found: seq<Combination>
    var byTriple: map<Key, Combination>

    ghost predicate Valid()
      reads this
    {
      WellFormed(w, publishedOnly, found) && Indexed(found, byTriple)
    }

    constructor (w: World, publishedOnly: bool)
      ensures Valid() && found == [] && this.w == w && this.publishedOnly == publishedOnly
    {
      this.w, this.publishedOnly := w, publishedOnly;
      found, byTriple := [], map[];
    }

    /** The combination of a triple, built once. */
    method Add(t: Triple) returns (c: Combination)
      requires Valid() && TripleOk(w, t) && (publishedOnly ==> t.Checkouts() == 1)
      modifies this`found, this`byTriple
      ensures Valid() && old(found) <= found && c in found && c.triple == t
      ensures |found| <= |old(found)| + 1
    {
      hide WellFormed;
      hide Indexed;
      hide TripleOk;
      if KeyOf(t) in byTriple {
        Known(w, publishedOnly, found, byTriple, t);
        return byTriple[KeyOf(t)];
      }
      c := Combination(IdAt(t, |found|), t, Consistent(w, t), false);
      Indexes(found, byTriple, c);
      OneMoreFound(w, publishedOnly, found, t);
      byTriple := byTriple[KeyOf(t) := c];
      found := found + [c];
    }

    /** One line of the table, with the triple it asks for. */
    method Ask(subject: Piece, t: Option<Triple>) returns (row: Row)
      requires Valid() && TripleFits(w, publishedOnly, t)
      modifies this`found, this`byTriple
      ensures Valid() && old(found) <= found && RowShows(found, row, t) && row.subject == subject
    {
      if t.None? {
        return Row(subject, None, false);
      }
      var c := Add(t.value);
      row := Row(subject, Some(c.id), c.consistent);
    }

    /** _downward: one line against the versions of the stage it requires. */
    method Downward(s: Stage) returns (rows: seq<Row>)
      requires Valid() && Below(s).Some?
      modifies this`found, this`byTriple
      ensures Valid() && old(found) <= found && DownRows(w, s, publishedOnly, found, rows)
    {
      hide Valid;
      hide RowShows;
      hide DownSubjects;
      hide DownTriple;
      hide TripleFits;
      rows := [];
      DownFits(w, s, publishedOnly);
      var subjects := DownSubjects(w, s, publishedOnly);
      for i := 0 to |subjects|
        invariant Valid() && old(found) <= found && |rows| == i
        invariant forall k :: 0 <= k < i ==>
                    rows[k].subject == subjects[k]
                      && RowShows(found, rows[k], DownTriple(w, s, subjects[k], publishedOnly))
      {
        ghost var before := found;
        var row := Ask(subjects[i], DownTriple(w, s, subjects[i], publishedOnly));
        forall k | 0 <= k < i
          ensures RowShows(found, rows[k], DownTriple(w, s, subjects[k], publishedOnly))
        {
          RowStays(before, found, rows[k], DownTriple(w, s, subjects[k], publishedOnly));
        }
        rows := rows + [row];
      }
    }

    /** _upward: one line held against the versions of the stage above it. */
    method Upward(s: Stage) returns (rows: seq<Row>)
      requires Valid() && AboveOf(s).Some?
      modifies this`found, this`byTriple
      ensures Valid() && old(found) <= found && UpRows(w, s, publishedOnly, found, rows)
    {
      hide Valid;
      hide RowShows;
      hide UpSubjects;
      hide UpTriple;
      hide TripleFits;
      rows := [];
      UpFits(w, s, publishedOnly);
      var subjects := UpSubjects(w, s, publishedOnly);
      for i := 0 to |subjects|
        invariant Valid() && old(found) <= found && |rows| == i
        invariant forall k :: 0 <= k < i ==>
                    rows[k].subject == subjects[k]
                      && RowShows(found, rows[k], UpTriple(w, s, subjects[k], publishedOnly))
      {
        ghost var before := found;
        var row := Ask(subjects[i], UpTriple(w, s, subjects[i], publishedOnly));
        forall k | 0 <= k < i
          ensures RowShows(found, rows[k], UpTriple(w, s, subjects[k], publishedOnly))
        {
          RowStays(before, found, rows[k], UpTriple(w, s, subjects[k], publishedOnly));
        }
        rows := rows + [row];
      }
    }
  }

  // ---- the one comparison ------------------------------------------------------------------

  /** A consistent combination with the most stages of this commit, the first of them. */
  predicate IsSubject(found: seq<Combination>, i: nat)
    requires i < |found|
  {
    found[i].consistent && forall k :: 0 <= k < |found| && found[k].consistent ==>
      var here, there := found[i].triple.Checkouts(), found[k].triple.Checkouts();
      there < here || (there == here && i <= k)
  }

  ghost predicate Marked(combinations: seq<Combination>) {
    forall i :: 0 <= i < |combinations| ==> (combinations[i].compare <==> IsSubject(combinations, i))
  }

  method MarkComparisonSubject(found: seq<Combination>) returns (marked: seq<Combination>)
    requires forall i :: 0 <= i < |found| ==> !found[i].compare
    ensures |marked| == |found| && Marked(marked)
    ensures forall i :: 0 <= i < |found| ==> marked[i].(compare := false) == found[i]
  {
    var best: Option<nat> := None;
    for i := 0 to |found|
      invariant best.None? ==> forall k :: 0 <= k < i ==> !found[k].consistent
      invariant best.Some? ==> best.value < i && found[best.value].consistent
      invariant best.Some? ==> forall k :: 0 <= k < i && found[k].consistent ==>
                  found[k].triple.Checkouts() < found[best.value].triple.Checkouts()
                  || (found[k].triple.Checkouts() == found[best.value].triple.Checkouts() && best.value <= k)
    {
      if found[i].consistent
         && (best.None? || found[i].triple.Checkouts() > found[best.value].triple.Checkouts()) {
        best := Some(i);
      }
    }
    marked := found;
    if best.Some? {
      marked := found[best.value := found[best.value].(compare := true)];
      MarkedBest(found, best.value, marked);
    }
  }

  lemma MarkedBest(found: seq<Combination>, best: nat, marked: seq<Combination>)
    requires best < |found| && IsSubject(found, best) && forall i :: 0 <= i < |found| ==> !found[i].compare
    requires marked == found[best := found[best].(compare := true)]
    ensures Marked(marked)
  {
    forall i | 0 <= i < |marked|
      ensures marked[i].compare <==> IsSubject(marked, i)
    {
      assert forall k :: 0 <= k < |found| ==>
        marked[k].consistent == found[k].consistent && marked[k].triple == found[k].triple;
      if i != best && marked[i].consistent {
        assert found[best].consistent && found[i].consistent;
        assert marked[best].consistent;
      }
    }
  }

  /** Exactly one combination is marked if any is consistent, and none otherwise. */
  lemma OneSubject(combinations: seq<Combination>)
    requires Marked(combinations)
    ensures (exists i :: 0 <= i < |combinations| && combinations[i].compare)
            <==> exists i :: 0 <= i < |combinations| && combinations[i].consistent
    ensures forall i, k :: 0 <= i < k < |combinations| ==> !(combinations[i].compare && combinations[k].compare)
  {
    if k :| 0 <= k < |combinations| && combinations[k].consistent {
      var i := BestUpTo(combinations, |combinations|, k);
    }
  }

  lemma {:induction false} BestUpTo(found: seq<Combination>, n: nat, k: nat) returns (i: nat)
    requires k < n <= |found| && found[k].consistent
    ensures i < n && found[i].consistent
    ensures forall j :: 0 <= j < n && found[j].consistent ==>
              var here, there := found[i].triple.Checkouts(), found[j].triple.Checkouts();
              there < here || (there == here && i <= j)
    decreases n
  {
    if exists j :: 0 <= j < n - 1 && found[j].consistent {
      var j :| 0 <= j < n - 1 && found[j].consistent;
      i := BestUpTo(found, n - 1, j);
      if found[n - 1].consistent && found[n - 1].triple.Checkouts() > found[i].triple.Checkouts() {
        i := n - 1;
      }
    } else {
      i := n - 1;
    }
  }

  // ---- the plan ------------------------------------------------------------------------------

  datatype Plan = Plan(combinations: seq<Combination>, down: map<Stage, seq<Row>>, up: map<Stage, seq<Row>>)

  ghost predicate Catalogued(w: World, publishedOnly: bool, plan: Plan) {
    && plan.down.Keys == {Sdk, Workspace} && plan.up.Keys == {Workspace, Tools}
    && DownRows(w, Sdk, publishedOnly, plan.combinations, plan.down[Sdk])
    && DownRows(w, Workspace, publishedOnly, plan.combinations, plan.down[Workspace])
    && UpRows(w, Workspace, publishedOnly, plan.combinations, plan.up[Workspace])
    && UpRows(w, Tools, publishedOnly, plan.combinations, plan.up[Tools])
  }

  /** Distinct triples under distinct identifiers, required exactly when both
      constraints admit the stage below, one subject to compare, one checkout to
      a triple under the tag rule, and every row at a combination of its own. */
  ghost predicate PlanOk(w: World, publishedOnly: bool, plan: Plan) {
    && WellFormed(w, publishedOnly, plan.combinations)
    && Marked(plan.combinations)
    && Catalogued(w, publishedOnly, plan)
  }

  lemma DownRowsStay(w: World, s: Stage, publishedOnly: bool, found: seq<Combination>, more: seq<Combination>,
                     rows: seq<Row>)
    requires Below(s).Some? && DownRows(w, s, publishedOnly, found, rows) && found <= more
    ensures DownRows(w, s, publishedOnly, more, rows)
  {
    hide RowShows;
    hide DownSubjects;
    hide DownTriple;
    var subjects := DownSubjects(w, s, publishedOnly);
    forall i | 0 <= i < |rows|
      ensures RowShows(more, rows[i], DownTriple(w, s, subjects[i], publishedOnly))
    {
      RowStays(found, more, rows[i], DownTriple(w, s, subjects[i], publishedOnly));
    }
  }

  lemma UpRowsStay(w: World, s: Stage, publishedOnly: bool, found: seq<Combination>, more: seq<Combination>,
                   rows: seq<Row>)
    requires AboveOf(s).Some? && UpRows(w, s, publishedOnly, found, rows) && found <= more
    ensures UpRows(w, s, publishedOnly, more, rows)
  {
    hide RowShows;
    hide UpSubjects;
    hide UpTriple;
    var subjects := UpSubjects(w, s, publishedOnly);
    forall i | 0 <= i < |rows|
      ensures RowShows(more, rows[i], UpTriple(w, s, subjects[i], publishedOnly))
    {
      RowStays(found, more, rows[i], UpTriple(w, s, subjects[i], publishedOnly));
    }
  }

  /** The mark changes nothing a row says. */
  lemma RowsMarked(w: World, publishedOnly: bool, found: seq<Combination>, marked: seq<Combination>)
    requires |marked| == |found| && forall i :: 0 <= i < |found| ==> marked[i].(compare := false) == found[i]
    ensures WellFormed(w, publishedOnly, found) ==> WellFormed(w, publishedOnly, marked)
    ensures forall row, t :: RowShows(found, row, t) ==> RowShows(marked, row, t)
  {
    hide TripleOk;
    hide Consistent;
    assert forall i :: 0 <= i < |found| ==>
      marked[i].triple == found[i].triple && marked[i].id == found[i].id && marked[i].consistent == found[i].consistent;
    forall row, t | RowShows(found, row, t)
      ensures RowShows(marked, row, t)
    {
      if t.Some? {
        var i :| 0 <= i < |found| && found[i].triple == t.value && row.combination == Some(found[i].id)
                 && row.needed == found[i].consistent;
        assert marked[i].triple == t.value;
      }
    }
  }

  /** build_plan: three stages, both directions, their combinations. */
  method BuildPlan(w: World, publishedOnly: bool) returns (plan: Plan)
    ensures PlanOk(w, publishedOnly, plan)
  {
    hide DownRows;
    hide UpRows;
    hide WellFormed;
    var planner := new Planner(w, publishedOnly);
    var sdkDown := planner.Downward(Sdk);
    ghost var first := planner.found;
    var workspaceDown := planner.Downward(Workspace);
    ghost var second := planner.found;
    var workspaceUp := planner.Upward(Workspace);
    ghost var third := planner.found;
    var toolsUp := planner.Upward(Tools);
    DownRowsStay(w, Sdk, publishedOnly, first, planner.found, sdkDown);
    DownRowsStay(w, Workspace, publishedOnly, second, planner.found, workspaceDown);
    UpRowsStay(w, Workspace, publishedOnly, third, planner.found, workspaceUp);
    var marked := MarkComparisonSubject(planner.found);
    plan := Plan(marked, map[Sdk := sdkDown, Workspace := workspaceDown],
      map[Workspace := workspaceUp, Tools := toolsUp]);
    RowsMarked(w, publishedOnly, planner.found, marked);
    CatalogueMarked(w, publishedOnly, planner.found, plan);
  }

  lemma CatalogueMarked(w: World, publishedOnly: bool, found: seq<Combination>, plan: Plan)
    requires Catalogued(w, publishedOnly, plan.(combinations := found))
    requires forall row, t :: RowShows(found, row, t) ==> RowShows(plan.combinations, row, t)
    ensures Catalogued(w, publishedOnly, plan)
  {
    hide RowShows;
    hide DownSubjects;
    hide UpSubjects;
    hide DownTriple;
    hide UpTriple;
  }
}
