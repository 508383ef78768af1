/** The parts of a reference against the regular expressions they are checked with
    (mcuhome/model/imageref.py, _REGISTRY to _DIGEST). */
module ImageSpelling {
  import opened Wrappers
  import opened Strings
  import opened Patterns
  import opened ImageRef

  function Digits(): set<char> { Span('0', '9') }

  function Lowers(): set<char> { Span('a', 'z') + Digits() }

  function Alnums(): set<char> { Lowers() + Span('A', 'Z') }

  lemma Classes(c: char)
    ensures c in Digits() <==> IsDigit(c)
    ensures c in Lowers() <==> IsLower(c)
    ensures c in Alnums() <==> IsAlnum(c)
  {
  }

  // ---- digest, tag, registry ----------------------------------------------------

  /** sha256:[0-9a-f]{64} */
  function DigestPattern(): Pattern<char> {
    Then(Literally("sha256:"), Repeat(One(Digits() + Span('a', 'f')), 64, Some(64)))
  }

  /** [A-Za-z0-9_][A-Za-z0-9._-]{0,127} */
  function TagPattern(): Pattern<char> {
    Then(One(Alnums() + {'_'}), Repeat(One(Alnums() + {'.', '_', '-'}), 0, Some(127)))
  }

  function HostPattern(): Pattern<char> {
    Then(One(Alnums()), Repeat(One(Alnums() + {'.', '-'}), 0, None))
  }

  function PortPattern(): Pattern<char> {
    Then(One({':'}), Repeat(One(Digits()), 1, None))
  }

  /** [A-Za-z0-9][A-Za-z0-9.-]*(:[0-9]+)? */
  function RegistryPattern(): Pattern<char> {
    Then(HostPattern(), Repeat(PortPattern(), 0, Some(1)))
  }

  lemma DigestIs(s: string)
    ensures IsDigest(s) <==> Matches(DigestPattern(), s)
  {
    var hex := Digits() + Span('a', 'f');
    WordThen("sha256:", Repeat(One(hex), 64, Some(64)), s);
    if |s| >= 7 {
      ClassRun(hex, 64, Some(64), s[7..]);
    }
    hide Matches;
    if |s| == 71 {
      forall k | 7 <= k < 71
        ensures s[7..][k - 7] in hex <==> IsDigit(s[k]) || 'a' <= s[k] <= 'f'
      {
        Classes(s[k]);
      }
      hide IsDigit;
      hide Digits;
      assert AllIn(s[7..], hex) <==> forall k :: 7 <= k < 71 ==> IsDigit(s[k]) || 'a' <= s[k] <= 'f' by {
        if AllIn(s[7..], hex) {
          assert forall k {:trigger s[k]} :: 7 <= k < 71 ==> s[7..][k - 7] in hex;
        }
      }
    }
  }

  lemma TagIs(s: string)
    ensures IsTag(s) <==> Matches(TagPattern(), s)
  {
    var head, rest := Alnums() + {'_'}, Alnums() + {'.', '_', '-'};
    HeadRun(head, rest, Some(127), s);
    hide Matches;
    forall c: char
      ensures c in head <==> IsAlnum(c) || c == '_'
      ensures c in rest <==> IsAlnum(c) || c == '.' || c == '_' || c == '-'
    {
      Classes(c);
    }
    hide IsAlnum;
    hide Alnums;
    if s != [] && AllIn(s[1..], rest) && s[0] in head {
      forall k | 0 <= k < |s|
        ensures s[k] in rest
      {
        if k > 0 {
          assert s[1..][k - 1] in rest;
        }
      }
    }
  }

  /** The host part, and the port behind its colon. */
  predicate IsHost(s: string) {
    s != "" && IsAlnum(s[0]) && forall k :: 0 <= k < |s| ==> IsAlnum(s[k]) || s[k] == '.' || s[k] == '-'
  }

  predicate IsPort(s: string) {
    |s| > 1 && s[0] == ':' && forall k :: 1 <= k < |s| ==> IsDigit(s[k])
  }

  lemma HostPartIs(s: string)
    ensures IsHost(s) <==> Matches(HostPattern(), s)
  {
    var head, rest := Alnums(), Alnums() + {'.', '-'};
    HeadRun(head, rest, None, s);
    hide Matches;
    forall c: char
      ensures c in head <==> IsAlnum(c)
      ensures c in rest <==> IsAlnum(c) || c == '.' || c == '-'
    {
      Classes(c);
    }
    hide IsAlnum;
    hide Alnums;
    if s != [] && AllIn(s[1..], rest) && s[0] in head {
      forall k | 0 <= k < |s|
        ensures s[k] in rest
      {
        if k > 0 {
          assert s[1..][k - 1] in rest;
        }
      }
    }
  }

  lemma PortIs(s: string)
    ensures IsPort(s) <==> Matches(PortPattern(), s)
  {
    assert PortPattern() == Then(Literally(":"), Repeat(One(Digits()), 1, None));
    WordThen(":", Repeat(One(Digits()), 1, None), s);
    if s != "" {
      ClassRun(Digits(), 1, None, s[1..]);
    }
    hide Matches;
    forall c: char
      ensures c in Digits() <==> IsDigit(c)
    {
      Classes(c);
    }
    hide Digits;
    hide IsDigit;
    if s != "" && AllIn(s[1..], Digits()) {
      forall k | 1 <= k < |s|
        ensures s[k] in Digits()
      {
        assert s[1..][k - 1] in Digits();
      }
    }
  }

  lemma RegistryCuts(s: string, i: nat)
    requires i <= |s| && IsHost(s[..i]) && (s[i..] == "" || IsPort(s[i..]))
    ensures i == IndexOf(s, ':') && IsRegistry(s)
  {
    assert forall k :: 0 <= k < i ==> s[k] == s[..i][k];
    assert forall k :: i <= k < |s| ==> s[k] == s[i..][k - i];
  }

  lemma RegistryIs(s: string)
    ensures IsRegistry(s) <==> Matches(RegistryPattern(), s)
  {
    var p := RegistryPattern();
    forall i | 0 <= i <= |s|
      ensures IsHost(s[..i]) <==> Matches(p.first, s[..i])
      ensures (s[i..] == "" || IsPort(s[i..])) <==> Matches(p.second, s[i..])
    {
      HostPartIs(s[..i]);
      PortIs(s[i..]);
      OptionalIs(PortPattern(), s[i..]);
    }
    hide HostPattern;
    hide PortPattern;
    if i :| 0 <= i <= |s| && Matches(p.first, s[..i]) && Matches(p.second, s[i..]) {
      RegistryCuts(s, i);
    }
    if IsRegistry(s) {
      var i := IndexOf(s, ':');
      assert IsHost(s[..i]) && (s[i..] == "" || IsPort(s[i..]));
    }
  }

  // ---- a path component ------------------------------------------------------------

  function LettersPattern(): Pattern<char> {
    Repeat(One(Lowers()), 1, None)
  }

  /** [._]|__|-+ */
  function SeparatorPattern(): Pattern<char> {
    Either(One({'.', '_'}), Either(Literally("__"), Repeat(One({'-'}), 1, None)))
  }

  function LinkPattern(): Pattern<char> {
    Then(SeparatorPattern(), LettersPattern())
  }

  /** [a-z0-9]+(?:(?:[._]|__|-+)[a-z0-9]+)* */
  function ComponentPattern(): Pattern<char> {
    Then(LettersPattern(), Repeat(LinkPattern(), 0, None))
  }

  predicate AllLower(s: string) {
    forall k :: 0 <= k < |s| ==> IsLower(s[k])
  }

  predicate IsSeparator(s: string) {
    s == "." || s == "_" || s == "__" || (s != "" && forall k :: 0 <= k < |s| ==> s[k] == '-')
  }

  predicate LinkAt(s: string, i: nat) {
    i < |s| && IsSeparator(s[..i]) && AllLower(s[i..])
  }

  predicate IsLink(s: string) {
    exists i :: 0 <= i < |s| && LinkAt(s, i)
  }

  lemma LettersIs(s: string)
    ensures Matches(LettersPattern(), s) <==> s != "" && AllLower(s)
  {
    ClassRun(Lowers(), 1, None, s);
    hide Matches;
    forall c: char
      ensures c in Lowers() <==> IsLower(c)
    {
      Classes(c);
    }
    hide Lowers;
    hide IsLower;
  }

  lemma SeparatorIs(s: string)
    ensures Matches(SeparatorPattern(), s) <==> IsSeparator(s)
  {
    LiterallyIs("__", s);
    ClassRun({'-'}, 1, None, s);
    var p := SeparatorPattern();
    assert Matches(p.left, s) <==> s == "." || s == "_";
    assert Matches(p, s) <==> Matches(p.left, s) || Matches(p.right.left, s) || Matches(p.right.right, s);
    hide Matches;
    assert AllIn(s, {'-'}) <==> forall k :: 0 <= k < |s| ==> s[k] == '-';
  }

  lemma LinkIs(s: string)
    ensures Matches(LinkPattern(), s) <==> IsLink(s)
  {
    hide Matches;
    hide SeparatorPattern;
    hide LettersPattern;
    hide IsSeparator;
    hide AllLower;
    forall i | 0 <= i <= |s|
      ensures Matches(SeparatorPattern(), s[..i]) <==> IsSeparator(s[..i])
      ensures Matches(LettersPattern(), s[i..]) <==> i < |s| && AllLower(s[i..])
    {
      SeparatorIs(s[..i]);
      LettersIs(s[i..]);
    }
    if Matches(LinkPattern(), s) {
      var i := ThenSplits(SeparatorPattern(), LettersPattern(), s);
      assert LinkAt(s, i);
    }
    if i :| 0 <= i < |s| && LinkAt(s, i) {
      ThenJoins(SeparatorPattern(), LettersPattern(), s, i);
    }
  }

  // ---- the hand-written recognizer of a component ------------------------------------

  lemma {:induction false} HyphensEnd(s: string) returns (h: nat)
    requires Hyphens(s)
    ensures h < |s| && (forall k :: 0 <= k < h ==> s[k] == '-') && Run(s[h..])
    decreases |s|
  {
    h := 0;
    if s[0] == '-' && Hyphens(s[1..]) {
      h := HyphensEnd(s[1..]);
      assert s[1..][h..] == s[h + 1..];
      h := h + 1;
    } else {
      assert s[0..] == s;
    }
  }

  lemma {:induction false} HyphensFrom(s: string, h: nat)
    requires h < |s| && (forall k :: 0 <= k < h ==> s[k] == '-') && Run(s[h..])
    ensures Hyphens(s)
    decreases |s|
  {
    if h == 0 {
      assert s[0..] == s;
    } else {
      assert s[1..][h - 1..] == s[h..];
      HyphensFrom(s[1..], h - 1);
    }
  }

  /** What may follow a run, and does not go on with it, is a separator and a run. */
  lemma SeparatorAhead(s: string) returns (h: nat)
    requires AfterRun(s) && s != "" && !IsLower(s[0])
    ensures 0 < h < |s| && IsSeparator(s[..h]) && Run(s[h..])
  {
    if s[0] == '-' {
      h := HyphensEnd(s[1..]);
      assert s[1..][h..] == s[h + 1..];
      h := h + 1;
      assert forall k :: 1 <= k < h ==> s[..h][k] == s[1..][k - 1];
    } else if s[0] == '_' && !Run(s[1..]) {
      h := 2;
      assert s[..2] == "__";
    } else {
      h := 1;
      assert s[..1] == [s[0]];
    }
  }

  lemma SeparatorFollows(s: string, h: nat)
    requires h < |s| && IsSeparator(s[..h]) && Run(s[h..])
    ensures AfterRun(s)
  {
    var front := s[..h];
    assert forall k :: 0 <= k < h ==> s[k] == front[k];
    if front != "." && front != "_" && front != "__" {
      assert s[1..][h - 1..] == s[h..];
      assert s[0] == '-' && forall k :: 0 <= k < h - 1 ==> s[1..][k] == '-' by {
        assert forall k :: 0 <= k < h - 1 ==> s[1..][k] == front[k + 1];
      }
      HyphensFrom(s[1..], h - 1);
    }
  }

  /** The rest of a run, and any number of links. */
  ghost predicate Parts(s: string, n: nat, pieces: seq<string>) {
    && n <= |s| && AllLower(s[..n]) && Glued(pieces) == s[n..]
    && forall k :: 0 <= k < |pieces| ==> IsLink(pieces[k])
  }

  lemma LetterInFront(s: string, n: nat, pieces: seq<string>)
    requires s != "" && IsLower(s[0]) && Parts(s[1..], n, pieces)
    ensures Parts(s, n + 1, pieces)
  {
    hide IsLower;
    hide IsLink;
    assert s[1..][n..] == s[n + 1..];
    assert s[..n + 1] == [s[0]] + s[1..][..n];
  }

  lemma LinkInFront(s: string, h: nat, more: nat, rest: seq<string>)
    requires h < |s| && IsSeparator(s[..h]) && IsLower(s[h]) && Parts(s[h..][1..], more, rest)
    ensures Parts(s, 0, [s[..h + 1 + more]] + rest)
  {
    hide IsLower;
    hide IsSeparator;
    LinkHere(s, h, more);
    hide IsLink;
    var pieces := [s[..h + 1 + more]] + rest;
    assert pieces[1..] == rest && s[h..][1..][more..] == s[h + 1 + more..];
    assert s[0..] == s == s[..h + 1 + more] + s[h + 1 + more..];
  }

  /** What follows a run is the rest of it and any number of links. */
  lemma {:induction false} LinksAfter(s: string) returns (n: nat, pieces: seq<string>)
    requires AfterRun(s)
    ensures n <= |s| && Parts(s, n, pieces)
    decreases |s|
  {
    hide Parts;
    if s == "" {
      n, pieces := 0, [];
      NoParts();
    } else if IsLower(s[0]) {
      n, pieces := LinksAfter(s[1..]);
      LetterInFront(s, n, pieces);
      n := n + 1;
    } else {
      var h := SeparatorAhead(s);
      var more, rest := LinksAfter(s[h..][1..]);
      LinkInFront(s, h, more, rest);
      n, pieces := 0, [s[..h + 1 + more]] + rest;
    }
  }

  lemma NoParts()
    ensures Parts("", 0, [])
  {
  }

  lemma LinkHere(s: string, h: nat, more: nat)
    requires h + 1 + more <= |s| && IsSeparator(s[..h]) && IsLower(s[h]) && AllLower(s[h..][1..][..more])
    ensures IsLink(s[..h + 1 + more])
  {
    hide IsSeparator;
    hide IsLower;
    var piece := s[..h + 1 + more];
    assert piece[..h] == s[..h];
    forall k | 0 <= k < |piece[h..]|
      ensures IsLower(piece[h..][k])
    {
      if k > 0 {
        assert piece[h..][k] == s[h..][1..][..more][k - 1];
      }
    }
    assert LinkAt(piece, h);
  }

  lemma {:induction false} LettersThen(letters: string, rest: string)
    requires AllLower(letters) && AfterRun(rest)
    ensures AfterRun(letters + rest)
    decreases |letters|
  {
    hide IsLower;
    if letters == "" {
      assert letters + rest == rest;
    } else {
      LettersThen(letters[1..], rest);
      assert (letters + rest)[1..] == letters[1..] + rest;
    }
  }

  lemma {:induction false} AfterLinks(letters: string, pieces: seq<string>)
    requires AllLower(letters) && forall k :: 0 <= k < |pieces| ==> IsLink(pieces[k])
    ensures AfterRun(letters + Glued(pieces))
    decreases |pieces|
  {
    hide IsLower;
    hide IsSeparator;
    if pieces != [] {
      var rest := Glued(pieces[1..]);
      var h :| 0 <= h < |pieces[0]| && LinkAt(pieces[0], h);
      var run, s := pieces[0][h..], pieces[0] + rest;
      AfterLinks(run[1..], pieces[1..]);
      assert s[..h] == pieces[0][..h] && s[h..] == run + rest;
      assert (run + rest)[1..] == run[1..] + rest && (run + rest)[0] == run[0];
      SeparatorFollows(s, h);
    }
    LettersThen(letters, Glued(pieces));
  }

  lemma ComponentIs(s: string)
    ensures Run(s) <==> Matches(ComponentPattern(), s)
  {
    hide Matches;
    hide LettersPattern;
    hide LinkPattern;
    hide AfterRun;
    hide IsLink;
    if Run(s) {
      var n, pieces := LinksAfter(s[1..]);
      assert s[..n + 1] == [s[0]] + s[1..][..n] && s[n + 1..] == s[1..][n..];
      LettersIs(s[..n + 1]);
      forall k | 0 <= k < |pieces|
        ensures Matches(LinkPattern(), pieces[k])
      {
        LinkIs(pieces[k]);
      }
      RepeatJoins(LinkPattern(), 0, None, pieces);
      ThenJoins(LettersPattern(), Repeat(LinkPattern(), 0, None), s, n + 1);
    }
    if Matches(ComponentPattern(), s) {
      var i := ThenSplits(LettersPattern(), Repeat(LinkPattern(), 0, None), s);
      LettersIs(s[..i]);
      var pieces := RepeatSplits(LinkPattern(), 0, None, s[i..]);
      forall k | 0 <= k < |pieces|
        ensures IsLink(pieces[k])
      {
        LinkIs(pieces[k]);
      }
      AfterLinks(s[..i][1..], pieces);
      assert s[1..] == s[..i][1..] + s[i..] && s[0] == s[..i][0];
    }
  }

  // ---- a path -------------------------------------------------------------------------

  function StepPattern(): Pattern<char> {
    Then(Literally("/"), ComponentPattern())
  }

  /** component(?:/component)* */
  function PathPattern(): Pattern<char> {
    Then(ComponentPattern(), Repeat(StepPattern(), 0, None))
  }

  function Slashed(parts: seq<string>): seq<string> {
    seq(|parts|, k requires 0 <= k < |parts| => "/" + parts[k])
  }

  lemma {:induction false} JoinedIs(parts: seq<string>)
    requires parts != []
    ensures Join(parts, '/') == parts[0] + Glued(Slashed(parts[1..]))
    decreases |parts|
  {
    if |parts| == 1 {
      assert Slashed(parts[1..]) == [] && parts[0] + [] == parts[0];
    } else {
      JoinedIs(parts[1..]);
      var slashed := Slashed(parts[1..]);
      assert slashed[0] == "/" + parts[1] && slashed[1..] == Slashed(parts[1..][1..]);
      assert parts[0] + ['/'] + (parts[1] + Glued(slashed[1..])) == parts[0] + (("/" + parts[1]) + Glued(slashed[1..]));
    }
  }

  lemma StepIs(s: string)
    ensures Matches(StepPattern(), s) <==> s != "" && s[0] == '/' && Run(s[1..])
  {
    WordThen("/", ComponentPattern(), s);
    if s != "" {
      ComponentIs(s[1..]);
      assert s[..1] == [s[0]];
    }
    hide Matches;
    hide ComponentPattern;
    hide Run;
  }

  lemma PathIs(s: string)
    ensures IsPath(s) <==> Matches(PathPattern(), s)
  {
    hide Matches;
    hide ComponentPattern;
    hide StepPattern;
    hide Run;
    if IsPath(s) {
      var parts := Split(s, '/');
      JoinSplit(s, '/');
      JoinedIs(parts);
      PartsMatch(parts);
    }
    if Matches(PathPattern(), s) {
      var i := ThenSplits(ComponentPattern(), Repeat(StepPattern(), 0, None), s);
      ComponentIs(s[..i]);
      var pieces := RepeatSplits(StepPattern(), 0, None, s[i..]);
      forall k | 0 <= k < |pieces|
        ensures pieces[k] != "" && pieces[k][0] == '/' && Run(pieces[k][1..])
      {
        StepIs(pieces[k]);
      }
      var parts := [s[..i]] + seq(|pieces|, k requires 0 <= k < |pieces| => pieces[k][1..]);
      assert forall k :: 0 <= k < |pieces| ==> Slashed(parts[1..])[k] == pieces[k];
      assert Slashed(parts[1..]) == pieces;
      JoinedIs(parts);
      assert s == s[..i] + s[i..];
      RunsArePath(parts);
    }
  }

  lemma PartsMatch(parts: seq<string>)
    requires parts != [] && forall k :: 0 <= k < |parts| ==> Run(parts[k])
    ensures Matches(PathPattern(), parts[0] + Glued(Slashed(parts[1..])))
  {
    hide Matches;
    hide ComponentPattern;
    hide StepPattern;
    hide Run;
    var pieces := Slashed(parts[1..]);
    forall k | 0 <= k < |pieces|
      ensures Matches(StepPattern(), pieces[k])
    {
      assert pieces[k][1..] == parts[k + 1];
      StepIs(pieces[k]);
    }
    RepeatJoins(StepPattern(), 0, None, pieces);
    ComponentIs(parts[0]);
    var s := parts[0] + Glued(pieces);
    assert s[..|parts[0]|] == parts[0] && s[|parts[0]|..] == Glued(pieces);
    ThenJoins(ComponentPattern(), Repeat(StepPattern(), 0, None), s, |parts[0]|);
  }

  lemma RunsArePath(parts: seq<string>)
    requires parts != [] && forall k :: 0 <= k < |parts| ==> Run(parts[k])
    ensures IsPath(Join(parts, '/'))
  {
    forall k | 0 <= k < |parts|
      ensures '/' !in parts[k]
    {
      NoSlash(parts[k]);
    }
    SplitJoin(parts, '/');
  }

  lemma {:induction false} NoSlash(s: string)
    ensures Run(s) || AfterRun(s) || Hyphens(s) ==> '/' !in s
    decreases |s|
  {
    if s != "" {
      NoSlash(s[1..]);
      if |s| > 1 {
        NoSlash(s[2..]);
        assert s == [s[0], s[1]] + s[2..];
      }
      assert s == [s[0]] + s[1..];
    }
  }
}
