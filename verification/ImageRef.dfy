/** The Docker reference form (mcuhome/model/imageref.py): registry, path, tag
    and digest in one string. */
module ImageRef {
  import opened Wrappers
  import opened Strings

  datatype Reference = Reference(registry: string, path: string, tag: Option<string>, digest: Option<string>)

  datatype Refusal = Empty | NoDigest(tail: string) | NoTag(text: string) | NoRegistry(text: string)
    | NoPath(text: string)

  // ---- the four parts ------------------------------------------------------------

  predicate IsDigit(c: char) { '0' <= c <= '9' }

  predicate IsLower(c: char) { 'a' <= c <= 'z' || IsDigit(c) }

  predicate IsAlnum(c: char) { IsLower(c) || 'A' <= c <= 'Z' }

  /** A host name, optionally with a port. */
  predicate IsRegistry(s: string) {
    var i := IndexOf(s, ':');
    && i > 0 && IsAlnum(s[0])
    && (forall k :: 0 <= k < i ==> IsAlnum(s[k]) || s[k] == '.' || s[k] == '-')
    && (i < |s| ==> i + 1 < |s| && forall k :: i < k < |s| ==> IsDigit(s[k]))
  }

  /** One path component: runs of lowercase alphanumerics joined by a period, one
      or two underscores, or hyphens; `After` holds of what may follow a run. */
  predicate AfterRun(s: string)
    decreases |s|
  {
    || s == ""
    || (IsLower(s[0]) && AfterRun(s[1..]))
    || (s[0] == '.' && Run(s[1..]))
    || (s[0] == '_' && (Run(s[1..]) || (|s| > 1 && s[1] == '_' && Run(s[2..]))))
    || (s[0] == '-' && Hyphens(s[1..]))
  }

  predicate Run(s: string)
    decreases |s|
  {
    s != "" && IsLower(s[0]) && AfterRun(s[1..])
  }

  predicate Hyphens(s: string)
    decreases |s|
  {
    s != "" && ((s[0] == '-' && Hyphens(s[1..])) || (IsLower(s[0]) && AfterRun(s[1..])))
  }

  predicate IsPath(s: string) {
    var parts := Split(s, '/');
    forall i :: 0 <= i < |parts| ==> Run(parts[i])
  }

  predicate IsTag(s: string) {
    && 1 <= |s| <= 128 && (IsAlnum(s[0]) || s[0] == '_')
    && forall i :: 0 <= i < |s| ==> IsAlnum(s[i]) || s[i] == '.' || s[i] == '_' || s[i] == '-'
  }

  const ALGORITHM := "sha256:"

  predicate IsDigest(s: string) {
    && |s| == 71 && s[..7] == ALGORITHM
    && forall i :: 7 <= i < 71 ==> IsDigit(s[i]) || 'a' <= s[i] <= 'f'
  }

  /** How docker tells a host from the first component of a path. */
  predicate LooksLikeHost(s: string) {
    '.' in s || ':' in s || s == "localhost"
  }

  predicate Recognisable(registry: string) {
    LooksLikeHost(registry) && IsRegistry(registry)
  }

  // ---- parsing ---------------------------------------------------------------------

  predicate IsSpace(c: char) {
    IsBlank(c as int)
  }

  function StripLeft(s: string): string {
    if s != "" && IsSpace(s[0]) then StripLeft(s[1..]) else s
  }

  function StripRight(s: string): string {
    if s != "" && IsSpace(s[|s| - 1]) then StripRight(s[..|s| - 1]) else s
  }

  function Strip(s: string): string {
    StripRight(StripLeft(s))
  }

  /** The text before the digest, and the digest. */
  function CutDigest(text: string): Result<(string, Option<string>), Refusal> {
    var i := IndexOf(text, '@');
    if i == |text| then Ok((text, None))
    else if IsDigest(text[i + 1..]) then Ok((text[..i], Some(text[i + 1..])))
    else Err(NoDigest(text[i + 1..]))
  }

  /** The text before the tag, and the tag: last colon first, and only when no
      slash follows - a registry's port is no tag. */
  function CutTag(text: string): Result<(string, Option<string>), Refusal> {
    var i := BehindLast(text, ':');
    if i == 0 || '/' in text[i..] then Ok((text, None))
    else if IsTag(text[i..]) then Ok((text[..i - 1], Some(text[i..])))
    else Err(NoTag(text[i..]))
  }

  /** The registry, and the path. */
  function CutRegistry(text: string, fallback: string): Result<(string, string), Refusal> {
    var i := IndexOf(text, '/');
    if i < |text| && LooksLikeHost(text[..i]) then
      if IsRegistry(text[..i]) then Ok((text[..i], text[i + 1..])) else Err(NoRegistry(text[..i]))
    else Ok((fallback, text))
  }

  function Parse(text: string, fallback: string): Result<Reference, Refusal> {
    var stripped := Strip(text);
    if stripped == "" then Err(Empty)
    else
      var digest := CutDigest(stripped);
      if digest.Err? then Err(digest.error)
      else
        var tag := CutTag(digest.value.0);
        if tag.Err? then Err(tag.error)
        else
          var registry := CutRegistry(tag.value.0, fallback);
          if registry.Err? then Err(registry.error)
          else if !IsPath(registry.value.1) then Err(NoPath(registry.value.1))
          else Ok(Reference(registry.value.0, registry.value.1, tag.value.1, digest.value.1))
  }

  // ---- printing --------------------------------------------------------------------

  function Repository(r: Reference): string {
    r.registry + "/" + r.path
  }

  function Tagged(r: Reference): string {
    if r.tag.Some? && r.tag.value != "" then Repository(r) + ":" + r.tag.value else Repository(r)
  }

  function Print(r: Reference): string {
    if r.digest.Some? && r.digest.value != "" then Tagged(r) + "@" + r.digest.value else Tagged(r)
  }

  function Runnable(r: Reference): string {
    if r.digest.Some? && r.digest.value != "" then Repository(r) + "@" + r.digest.value else Print(r)
  }

  /** This reference, pinned; an existing tag is kept when none is given. */
  function WithDigest(r: Reference, digest: string, tag: Option<string>): Result<Reference, Refusal> {
    if !IsDigest(digest) then Err(NoDigest(digest))
    else Ok(r.(digest := Some(digest), tag := if tag.Some? then tag else r.tag))
  }

  // ---- what parsing answers ----------------------------------------------------------

  predicate WellFormed(r: Reference) {
    IsPath(r.path) && (r.tag.Some? ==> IsTag(r.tag.value)) && (r.digest.Some? ==> IsDigest(r.digest.value))
  }

  /** Every part is checked, and the registry is the default or one docker recognises. */
  lemma ParsedIsWellFormed(text: string, fallback: string)
    requires Parse(text, fallback).Ok?
    ensures var r := Parse(text, fallback).value;
            WellFormed(r) && (r.registry == fallback || Recognisable(r.registry))
  {
  }

  // ---- there and back -----------------------------------------------------------------

  predicate Clean(s: string) {
    forall i :: 0 <= i < |s| ==> s[i] != ':' && s[i] != '@' && !IsSpace(s[i])
  }

  lemma {:induction false} RunIsClean(s: string)
    ensures (Run(s) ==> s != "" && Clean(s)) && (AfterRun(s) ==> Clean(s)) && (Hyphens(s) ==> Clean(s))
    decreases |s|
  {
    if s != "" {
      RunIsClean(s[1..]);
      if |s| > 1 {
        RunIsClean(s[2..]);
      }
      assert forall k :: 0 <= k < |s| - 1 ==> s[1..][k] == s[k + 1];
      assert |s| > 1 ==> forall k :: 0 <= k < |s| - 2 ==> s[2..][k] == s[k + 2];
    }
  }

  lemma PathIsClean(s: string)
    requires IsPath(s)
    ensures s != "" && Clean(s)
  {
    var parts := Split(s, '/');
    JoinSplit(s, '/');
    forall i | 0 <= i < |parts|
      ensures parts[i] != "" && Clean(parts[i])
    {
      RunIsClean(parts[i]);
    }
    JoinIsClean(parts);
  }

  lemma {:induction false} JoinIsClean(parts: seq<string>)
    requires parts != [] && forall i :: 0 <= i < |parts| ==> parts[i] != "" && Clean(parts[i])
    ensures Join(parts, '/') != "" && Clean(Join(parts, '/'))
    decreases |parts|
  {
    if |parts| > 1 {
      JoinIsClean(parts[1..]);
    }
  }

  lemma RegistryIsClean(s: string)
    requires IsRegistry(s)
    ensures s != "" && '@' !in s && '/' !in s && !IsSpace(s[0])
  {
  }

  lemma DigestIsClean(s: string)
    requires IsDigest(s)
    ensures s != "" && '@' !in s && '/' !in s && !IsSpace(s[|s| - 1])
  {
    assert s == s[..7] + s[7..];
  }

  lemma TagIsClean(s: string)
    requires IsTag(s)
    ensures s != "" && '@' !in s && '/' !in s && ':' !in s && !IsSpace(s[|s| - 1])
  {
  }

  lemma StripNothing(s: string)
    requires s != "" && !IsSpace(s[0]) && !IsSpace(s[|s| - 1])
    ensures Strip(s) == s
  {
  }

  lemma CutShownDigest(front: string, digest: Option<string>)
    requires '@' !in front && (digest.Some? ==> IsDigest(digest.value))
    ensures CutDigest(if digest.Some? then front + "@" + digest.value else front) == Ok((front, digest))
  {
    if digest.Some? {
      var text := front + "@" + digest.value;
      assert text == front + ['@'] + digest.value;
      FirstIs(front, '@', digest.value);
      assert text[..|front|] == front && text[|front| + 1..] == digest.value;
    } else {
      FirstIs(front, '@', []);
    }
  }

  lemma CutShownTag(registry: string, path: string, tag: Option<string>)
    requires ':' !in path && (tag.Some? ==> IsTag(tag.value))
    ensures var front := registry + "/" + path;
            CutTag(if tag.Some? then front + ":" + tag.value else front) == Ok((front, tag))
  {
    var front := registry + "/" + path;
    if tag.Some? {
      var text := front + ":" + tag.value;
      assert text == front + [':'] + tag.value;
      TagIsClean(tag.value);
      LastIs(front, ':', tag.value);
      assert text[..|front|] == front && text[|front| + 1..] == tag.value;
    } else {
      var i := BehindLast(front, ':');
      if i > 0 {
        assert front[i - 1] == ':';
        assert i - 1 < |registry| by {
          assert forall k :: |registry| < k < |front| ==> front[k] == path[k - |registry| - 1];
        }
        assert front[|registry|] == '/' && front[i..][|registry| - i] == '/';
      }
    }
  }

  lemma CutShownRegistry(registry: string, path: string, fallback: string)
    requires Recognisable(registry)
    ensures CutRegistry(registry + "/" + path, fallback) == Ok((registry, path))
  {
    var text := registry + "/" + path;
    RegistryIsClean(registry);
    assert text == registry + ['/'] + path;
    FirstIs(registry, '/', path);
    assert text[..|registry|] == registry && text[|registry| + 1..] == path;
  }

  lemma Ends(r: Reference)
    requires WellFormed(r) && Recognisable(r.registry)
    ensures var text := Print(r); text != "" && !IsSpace(text[0]) && !IsSpace(text[|text| - 1])
    ensures '@' !in Tagged(r)
  {
    RegistryIsClean(r.registry);
    PathIsClean(r.path);
    hide IsRegistry;
    hide IsPath;
    if r.tag.Some? {
      TagIsClean(r.tag.value);
    }
    if r.digest.Some? {
      DigestIsClean(r.digest.value);
    }
    hide IsTag;
    hide IsDigest;
    hide IsSpace;
  }

  /** A printed reference with a registry docker recognises is read back as it
      was, whatever the default. */
  lemma ParsePrinted(r: Reference, fallback: string)
    requires WellFormed(r) && Recognisable(r.registry)
    ensures Parse(Print(r), fallback) == Ok(r)
  {
    Ends(r);
    StripNothing(Print(r));
    PathIsClean(r.path);
    DigestGiven(r);
    CutShownDigest(Tagged(r), r.digest);
    CutShownTag(r.registry, r.path, r.tag);
    CutShownRegistry(r.registry, r.path, fallback);
    hide Strip;
    hide CutDigest;
    hide CutTag;
    hide CutRegistry;
    hide IsPath;
    hide IsTag;
    hide IsDigest;
    hide Recognisable;
  }

  lemma DigestGiven(r: Reference)
    requires WellFormed(r)
    ensures r.digest.Some? ==> r.digest.value != ""
    ensures r.tag.Some? ==> r.tag.value != ""
  {
  }

  // ---- and only then -------------------------------------------------------------------

  function Slashes(s: string): nat {
    if s == "" then 0 else (if s[0] == '/' then 1 else 0) + Slashes(s[1..])
  }

  lemma {:induction false} SlashesAppend(a: string, b: string)
    ensures Slashes(a + b) == Slashes(a) + Slashes(b)
  {
    if a == "" {
      assert a + b == b;
    } else {
      assert (a + b)[1..] == a[1..] + b;
      SlashesAppend(a[1..], b);
    }
  }

  lemma {:induction false} NoSlashes(s: string)
    requires '/' !in s
    ensures Slashes(s) == 0
  {
    if s != "" {
      NoSlashes(s[1..]);
    }
  }

  lemma {:induction false} StripKeepsSlashes(s: string)
    ensures Slashes(StripLeft(s)) == Slashes(s) && Slashes(StripRight(s)) == Slashes(s)
  {
    if s != "" {
      StripKeepsSlashes(s[1..]);
      StripKeepsSlashes(s[..|s| - 1]);
      SlashesAppend(s[..|s| - 1], [s[|s| - 1]]);
      assert s == s[..|s| - 1] + [s[|s| - 1]];
    }
  }

  lemma DropTail(text: string, k: nat)
    requires k <= |text| && '/' !in text[k..]
    ensures Slashes(text[..k]) == Slashes(text)
  {
    NoSlashes(text[k..]);
    SlashesAppend(text[..k], text[k..]);
    assert text == text[..k] + text[k..];
  }

  lemma DigestKeepsSlashes(text: string)
    ensures CutDigest(text).Ok? ==> Slashes(CutDigest(text).value.0) == Slashes(text)
  {
    var i := IndexOf(text, '@');
    if i < |text| && IsDigest(text[i + 1..]) {
      DigestIsClean(text[i + 1..]);
      assert text[i..] == [text[i]] + text[i + 1..];
      DropTail(text, i);
    }
  }

  lemma TagKeepsSlashes(text: string)
    ensures CutTag(text).Ok? ==> Slashes(CutTag(text).value.0) == Slashes(text)
  {
    var k := BehindLast(text, ':');
    if k > 0 && '/' !in text[k..] {
      assert text[k - 1..] == [text[k - 1]] + text[k..];
      DropTail(text, k - 1);
    }
  }

  lemma PrintedSlashes(r: Reference)
    ensures Slashes(Print(r)) > Slashes(r.path)
  {
    SlashesAppend(r.registry, "/" + r.path);
    SlashesAppend("/", r.path);
    assert Repository(r) == r.registry + ("/" + r.path);
    assert Slashes("/") == 1 + Slashes("");
    var rest := Print(r)[|Repository(r)|..];
    assert Print(r) == Repository(r) + rest;
    SlashesAppend(Repository(r), rest);
  }

  /** Exactly then: a default host docker would not recognise is not read back
      as one, under any default. */
  lemma ParsePrintedExactly(r: Reference, fallback: string)
    requires WellFormed(r)
    ensures Parse(Print(r), fallback) == Ok(r) <==> Recognisable(r.registry)
  {
    if Recognisable(r.registry) {
      ParsePrinted(r, fallback);
    } else if Parse(Print(r), fallback) == Ok(r) {
      OnlyRecognised(r, fallback);
    }
  }

  /** The two texts between the cuts. */
  lemma Cuts(text: string, fallback: string) returns (front: string, rest: string)
    requires Parse(text, fallback).Ok?
    ensures var r := Parse(text, fallback).value;
            && CutDigest(Strip(text)) == Ok((front, r.digest)) && CutTag(front) == Ok((rest, r.tag))
            && CutRegistry(rest, fallback) == Ok((r.registry, r.path))
  {
    front := CutDigest(Strip(text)).value.0;
    rest := CutTag(front).value.0;
    hide CutDigest;
    hide CutTag;
    hide CutRegistry;
    hide Strip;
    hide IsPath;
  }

  lemma RegistryOrAll(rest: string, fallback: string)
    requires CutRegistry(rest, fallback).Ok?
    ensures Recognisable(CutRegistry(rest, fallback).value.0) || CutRegistry(rest, fallback).value.1 == rest
  {
    hide IsRegistry;
    hide LooksLikeHost;
  }

  lemma OnlyRecognised(r: Reference, fallback: string)
    requires Parse(Print(r), fallback) == Ok(r)
    ensures Recognisable(r.registry)
  {
    hide Parse;
    hide Print;
    hide CutDigest;
    hide CutTag;
    hide CutRegistry;
    hide Recognisable;
    hide Slashes;
    var text := Print(r);
    var front, rest := Cuts(text, fallback);
    StripKeepsSlashes(text);
    StripKeepsSlashes(StripLeft(text));
    DigestKeepsSlashes(Strip(text));
    TagKeepsSlashes(front);
    PrintedSlashes(r);
    RegistryOrAll(rest, fallback);
  }

  /** Two references that print alike are one. */
  lemma PrintInjective(a: Reference, b: Reference)
    requires WellFormed(a) && WellFormed(b) && Recognisable(a.registry) && Recognisable(b.registry)
    requires Print(a) == Print(b)
    ensures a == b
  {
    ParsePrinted(a, "");
    ParsePrinted(b, "");
  }

  /** What is run names the same bytes: the reference without its tag, which is
      documentation once there is a digest. */
  lemma RunsThePin(r: Reference, digest: string, tag: Option<string>, fallback: string)
    requires WellFormed(r) && Recognisable(r.registry) && (tag.Some? ==> IsTag(tag.value))
    ensures WithDigest(r, digest, tag).Ok? <==> IsDigest(digest)
    ensures WithDigest(r, digest, tag).Ok? ==>
              var pinned := WithDigest(r, digest, tag).value;
              && Parse(Print(pinned), fallback) == Ok(pinned)
              && Parse(Runnable(pinned), fallback) == Ok(Reference(r.registry, r.path, None, Some(digest)))
  {
    if IsDigest(digest) {
      var pinned := WithDigest(r, digest, tag).value;
      var bare := Reference(r.registry, r.path, None, Some(digest));
      hide IsPath;
      hide IsRegistry;
      hide LooksLikeHost;
      ParsePrinted(pinned, fallback);
      ParsePrinted(bare, fallback);
      hide Parse;
      DigestGiven(bare);
      assert Runnable(pinned) == Print(bare);
    }
  }
}
