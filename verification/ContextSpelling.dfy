/** The checked fields of a context against the regular expressions and the rules they
    are checked with (mcuhome/model/context.py, _SHA256_HEX to _VERSION, _require_path). */
module ContextSpelling {
  import opened Wrappers
  import opened Strings
  import opened Patterns
  import opened Utf8
  import opened ContextId

  /** The code points of a class. */
  function Codes(chars: set<char>): set<int> {
    set c | c in chars :: c as int
  }

  function Digits(): set<int> { Codes(Span('0', '9')) }

  function Lowers(): set<int> { Codes(Span('a', 'z')) + Digits() }

  function Alnums(): set<int> { Lowers() + Codes(Span('A', 'Z')) }

  function Signs(s: string): set<int> {
    set i | 0 <= i < |s| :: s[i] as int
  }

  // ---- the patterns ---------------------------------------------------------------

  /** [0-9a-f]{64} */
  function HashPattern(): Pattern<int> {
    Repeat(One(Digits() + Codes(Span('a', 'f'))), 64, Some(64))
  }

  /** [0-9A-Za-z][0-9A-Za-z.+!_-]* */
  function VersionPattern(): Pattern<int> {
    Then(One(Alnums()), Repeat(One(Alnums() + Signs(".+!_-")), 0, None))
  }

  function LabelPattern(): Pattern<int> {
    Then(One(Lowers()), Repeat(One(Lowers() + Signs("-")), 0, None))
  }

  function SuffixPattern(): Pattern<int> {
    Then(Literally(Word("_")), LabelPattern())
  }

  /** [a-z0-9][a-z0-9-]*(?:_[a-z0-9][a-z0-9-]*)? */
  function NamePattern(): Pattern<int> {
    Then(LabelPattern(), Repeat(SuffixPattern(), 0, Some(1)))
  }

  lemma Classes(c: int)
    ensures c in Digits() <==> IsDigit(c)
    ensures c in Lowers() <==> IsLower(c) || IsDigit(c)
    ensures c in Alnums() <==> IsUpper(c) || IsLower(c) || IsDigit(c)
    ensures c in Codes(Span('a', 'f')) <==> 'a' as int <= c <= 'f' as int
  {
    SpanIs('0', '9', c);
    SpanIs('a', 'z', c);
    SpanIs('A', 'Z', c);
    SpanIs('a', 'f', c);
    hide Codes;
  }

  lemma SpanIs(first: char, last: char, c: int)
    requires last < 128 as char
    ensures c in Codes(Span(first, last)) <==> first as int <= c <= last as int
  {
    if first as int <= c <= last as int {
      assert (c as char) in Span(first, last);
    }
  }

  lemma SignIs(c: int)
    ensures c in Signs("-") <==> c == '-' as int
    ensures c in Signs(".+!_-") <==> c in ['.' as int, '+' as int, '!' as int, '_' as int, '-' as int]
  {
    var s, few := ".+!_-", ['.' as int, '+' as int, '!' as int, '_' as int, '-' as int];
    assert "-"[0] == '-';
    assert forall i :: 0 <= i < |s| ==> s[i] as int == few[i];
  }

  lemma HashIs(t: Text)
    ensures IsSha256(t) <==> Matches(HashPattern(), t)
  {
    var hex := Digits() + Codes(Span('a', 'f'));
    ClassRun(hex, 64, Some(64), t);
    hide Matches;
    forall c: int
      ensures c in hex <==> IsDigit(c) || 'a' as int <= c <= 'f' as int
    {
      Classes(c);
    }
    hide Digits;
    hide Codes;
    hide IsDigit;
  }

  lemma VersionIs(t: Text)
    ensures IsVersion(t) <==> Matches(VersionPattern(), t)
  {
    var head, rest := Alnums(), Alnums() + Signs(".+!_-");
    HeadRun(head, rest, None, t);
    hide Matches;
    forall c: int
      ensures c in head <==> IsUpper(c) || IsLower(c) || IsDigit(c)
      ensures c in Signs(".+!_-") <==> c in ['.' as int, '+' as int, '!' as int, '_' as int, '-' as int]
    {
      Classes(c);
      SignIs(c);
    }
    hide Alnums;
    hide Signs;
    hide IsUpper;
    hide IsLower;
    hide IsDigit;
    if t != [] && AllIn(t[1..], rest) && t[0] in head {
      forall k | 0 <= k < |t|
        ensures t[k] in rest
      {
        if k > 0 {
          assert t[1..][k - 1] in rest;
        }
      }
    }
  }

  lemma LabelIs(t: Text)
    ensures IsLabel(t) <==> Matches(LabelPattern(), t)
  {
    var head, rest := Lowers(), Lowers() + Signs("-");
    HeadRun(head, rest, None, t);
    hide Matches;
    forall c: int
      ensures c in head <==> IsLower(c) || IsDigit(c)
      ensures c in Signs("-") <==> c == '-' as int
    {
      Classes(c);
      SignIs(c);
    }
    hide Lowers;
    hide Signs;
    hide IsLower;
    hide IsDigit;
    if t != [] && AllIn(t[1..], rest) && t[0] in head {
      forall k | 0 <= k < |t|
        ensures t[k] in rest
      {
        if k > 0 {
          assert t[1..][k - 1] in rest;
        }
      }
    }
  }

  /** The suffix behind its underscore, or none. */
  predicate IsSuffix(t: Text) {
    t == [] || (t[0] == '_' as int && IsLabel(t[1..]))
  }

  lemma SuffixIs(t: Text)
    ensures IsSuffix(t) <==> Matches(Repeat(SuffixPattern(), 0, Some(1)), t)
  {
    OptionalIs(SuffixPattern(), t);
    WordThen(Word("_"), LabelPattern(), t);
    hide Matches;
    if t != [] {
      LabelIs(t[1..]);
      assert t[..1] == [t[0]] && Word("_") == ['_' as int];
    }
  }

  lemma NameCuts(t: Text, i: nat)
    requires i <= |t| && IsLabel(t[..i]) && IsSuffix(t[i..])
    ensures IsPackageName(t)
  {
    assert forall k :: 0 <= k < i ==> t[k] == t[..i][k];
    assert i < |t| ==> t[i..][0] == t[i] && t[i..][1..] == t[i + 1..];
    assert i == IndexOf(t, '_' as int);
  }

  lemma NameIs(t: Text)
    ensures IsPackageName(t) <==> Matches(NamePattern(), t)
  {
    hide Matches;
    hide LabelPattern;
    hide SuffixPattern;
    hide IsLabel;
    var suffixed := Repeat(SuffixPattern(), 0, Some(1));
    if IsPackageName(t) {
      var i := IndexOf(t, '_' as int);
      assert i < |t| ==> t[i..][0] == t[i] && t[i..][1..] == t[i + 1..];
      LabelIs(t[..i]);
      SuffixIs(t[i..]);
      ThenJoins(LabelPattern(), suffixed, t, i);
    }
    if Matches(NamePattern(), t) {
      var i := ThenSplits(LabelPattern(), suffixed, t);
      LabelIs(t[..i]);
      SuffixIs(t[i..]);
      NameCuts(t, i);
    }
  }

  // ---- a path of the integrity list ---------------------------------------------------

  predicate IsName(part: seq<int>) {
    && part != [] && part != Word(".") && part != Word("..")
    && '/' as int !in part && '\\' as int !in part
  }

  /** Names of files and directories with a slash between each two. */
  ghost predicate PathSpelled(t: Text) {
    exists parts: seq<seq<int>> ::
      parts != [] && t == Join(parts, '/' as int) && forall k :: 0 <= k < |parts| ==> IsName(parts[k])
  }

  lemma {:induction false} JoinedHas<T>(parts: seq<seq<T>>, c: T, x: T)
    requires parts != [] && x != c
    ensures x in Join(parts, c) <==> exists k :: 0 <= k < |parts| && x in parts[k]
    decreases |parts|
  {
    if |parts| > 1 {
      JoinedHas(parts[1..], c, x);
      assert forall k :: 0 < k < |parts| ==> parts[k] == parts[1..][k - 1];
      if x in Join(parts[1..], c) {
        var k :| 0 <= k < |parts[1..]| && x in parts[1..][k];
        assert x in parts[k + 1];
      }
    }
  }

  lemma PathIs(t: Text)
    ensures IsPath(t) <==> PathSpelled(t)
  {
    var slash, back := '/' as int, '\\' as int;
    hide Split;
    hide Join;
    if IsPath(t) {
      var parts := Split(t, slash);
      JoinSplit(t, slash);
      JoinedHas(parts, slash, back);
      assert forall k :: 0 <= k < |parts| ==> IsName(parts[k]);
    }
    if PathSpelled(t) {
      var parts: seq<seq<int>> :|
        parts != [] && t == Join(parts, slash) && forall k :: 0 <= k < |parts| ==> IsName(parts[k]);
      assert forall k :: 0 <= k < |parts| ==> slash !in parts[k];
      SplitJoin(parts, slash);
      JoinedHas(parts, slash, back);
      JoinStarts(parts, slash);
    }
  }

  lemma JoinStarts<T>(parts: seq<seq<T>>, c: T)
    requires parts != [] && parts[0] != []
    ensures Join(parts, c) != [] && Join(parts, c)[0] == parts[0][0]
  {
  }

  /** Where a path leads from a directory, as a program that unpacks it goes. */
  function Unpacked(at: seq<seq<int>>, parts: seq<seq<int>>): seq<seq<int>>
    decreases |parts|
  {
    if parts == [] then at
    else if parts[0] == [] || parts[0] == Word(".") then Unpacked(at, parts[1..])
    else if parts[0] == Word("..") then Unpacked(if at == [] then [] else at[..|at| - 1], parts[1..])
    else Unpacked(at + [parts[0]], parts[1..])
  }

  lemma {:induction false} NamesGoDown(at: seq<seq<int>>, parts: seq<seq<int>>)
    requires forall k :: 0 <= k < |parts| ==> IsName(parts[k])
    ensures Unpacked(at, parts) == at + parts
    decreases |parts|
  {
    if parts != [] {
      NamesGoDown(at + [parts[0]], parts[1..]);
      assert at + [parts[0]] + parts[1..] == at + parts;
    }
  }

  lemma PartsAreNames(t: Text)
    requires IsPath(t)
    ensures forall part :: part in Split(t, '/' as int) ==> IsName(part)
  {
    JoinSplit(t, '/' as int);
    JoinedHas(Split(t, '/' as int), '/' as int, '\\' as int);
    hide Split;
    hide Join;
  }

  /** An accepted path leads below any directory it is unpacked in, and no two lead to
      one place: a path is a file's identity and where it is unpacked at once. */
  lemma PathsStayApart(root: seq<seq<int>>, t: Text, u: Text)
    requires IsPath(t) && IsPath(u)
    ensures var there := Unpacked(root, Split(t, '/' as int)); |there| > |root| && there[..|root|] == root
    ensures Unpacked(root, Split(t, '/' as int)) == Unpacked(root, Split(u, '/' as int)) <==> t == u
  {
    PartsAreNames(t);
    PartsAreNames(u);
    hide IsPath;
    hide IsName;
    var ours, theirs := Split(t, '/' as int), Split(u, '/' as int);
    NamesGoDown(root, ours);
    NamesGoDown(root, theirs);
    JoinSplit(t, '/' as int);
    JoinSplit(u, '/' as int);
    hide Unpacked;
    hide Split;
    assert (root + ours)[|root|..] == ours && (root + theirs)[|root|..] == theirs;
  }

  /** What the list must not name: the two documents, and the backend's directory and
      everything in it. */
  ghost predicate ReservedSpelled(t: Text) {
    || t == Word("manifest.yaml") || t == Word("context.yaml") || t == Word(".mcuhome")
    || exists rest: Text :: t == Word(".mcuhome") + Word("/") + rest
  }

  lemma ReservedIs(t: Text)
    ensures IsReserved(t) <==> ReservedSpelled(t)
  {
    var slash, backend := '/' as int, Word(".mcuhome");
    assert Word("/") == [slash];
    NoSlashIn();
    hide Split;
    hide Word;
    if Split(t, slash)[0] == backend {
      if slash in t {
        var p, rest := FirstPart(t, slash);
        SplitFirst(p, slash, rest);
        assert t == backend + [slash] + rest;
      } else {
        SplitFirst(t, slash, []);
      }
    }
    if t == backend {
      SplitFirst(t, slash, []);
    } else if rest: Text :| t == backend + [slash] + rest {
      SplitFirst(backend, slash, rest);
    }
  }

  lemma NoSlashIn()
    ensures '/' as int !in Word(".mcuhome")
  {
    var s := ".mcuhome";
    assert forall i :: 0 <= i < |s| ==> s[i] != '/';
  }

  // ---- the whole input ------------------------------------------------------------------

  ghost predicate PackageSpelled(p: Package) {
    Matches(NamePattern(), p.name) && Matches(VersionPattern(), p.version) && Matches(HashPattern(), p.sha256)
  }

  /** The two forms of an environment, each with the SDK hash that goes with it. */
  ghost predicate EnvironmentSpelled(e: Environment, sdk: Text) {
    match e
    case Developer => sdk == []
    case Pinned(workspace, tools) =>
      PackageSpelled(workspace) && PackageSpelled(tools) && Matches(HashPattern(), sdk)
  }

  ghost predicate FileSpelled(f: File) {
    PathSpelled(f.path) && Matches(HashPattern(), f.sha256) && !ReservedSpelled(f.path)
  }

  ghost predicate Spelled(c: Context) {
    && EnvironmentSpelled(c.environment, c.sdk)
    && !(forall i :: 0 <= i < |c.board| ==> IsBlank(c.board[i]))
    && (forall i :: 0 <= i < |c.files| ==> FileSpelled(c.files[i]))
    && forall i, k :: 0 <= i < k < |c.files| ==> c.files[i].path != c.files[k].path
  }

  lemma PackageIs(p: Package)
    ensures IsPackage(p) <==> PackageSpelled(p)
  {
    NameIs(p.name);
    VersionIs(p.version);
    HashIs(p.sha256);
  }

  lemma FileIs(f: File)
    ensures IsFile(f) <==> FileSpelled(f)
  {
    PathIs(f.path);
    HashIs(f.sha256);
    ReservedIs(f.path);
  }

  /** An input is accepted exactly when every field of it is spelled the one way. */
  lemma AcceptedExactly(c: Context)
    ensures Checked(c) <==> Spelled(c)
  {
    hide IsPackage;
    hide PackageSpelled;
    hide IsFile;
    hide FileSpelled;
    hide Matches;
    hide IsSha256;
    if c.environment.Pinned? {
      PackageIs(c.environment.workspace);
      PackageIs(c.environment.tools);
      HashIs(c.sdk);
    }
    forall f: File
      ensures IsFile(f) <==> FileSpelled(f)
    {
      FileIs(f);
    }
    hide HashPattern;
  }
}
