/** Which texts a reference is read from (mcuhome/model/imageref.py,
    parse_reference): [registry/]path[:tag][@digest], exactly. */
module ImageGrammar {
  import opened Wrappers
  import opened Strings
  import opened Patterns
  import opened ImageRef
  import opened ImageSpelling

  function TagText(tag: Option<string>): string {
    if tag.Some? then ":" + tag.value else ""
  }

  function DigestText(digest: Option<string>): string {
    if digest.Some? then "@" + digest.value else ""
  }

  predicate StartsAt(path: string, host: string, more: string) {
    path == host + "/" + more && '/' !in host
  }

  /** A host has a period or a colon in it, or is the local one. */
  predicate TakenForHost(host: string) {
    host == "localhost" || exists i :: 0 <= i < |host| && (host[i] == '.' || host[i] == ':')
  }

  /** A path whose first component could be taken for a host. */
  ghost predicate NamesHost(path: string) {
    exists host, more :: StartsAt(path, host, more) && TakenForHost(host)
  }

  /** Every part matches its regular expression. */
  ghost predicate Spelled(r: Reference) {
    && Matches(PathPattern(), r.path)
    && (r.tag.Some? ==> Matches(TagPattern(), r.tag.value))
    && (r.digest.Some? ==> Matches(DigestPattern(), r.digest.value))
  }

  /** The text has a registry of its own. */
  ghost predicate Hosted(text: string, r: Reference) {
    && TakenForHost(r.registry) && Matches(RegistryPattern(), r.registry)
    && text == r.registry + "/" + r.path + TagText(r.tag) + DigestText(r.digest)
  }

  /** The text has none and means the default. */
  ghost predicate Defaulted(text: string, r: Reference, fallback: string) {
    r.registry == fallback && !NamesHost(r.path) && text == r.path + TagText(r.tag) + DigestText(r.digest)
  }

  lemma HostTaken(host: string)
    ensures TakenForHost(host) <==> LooksLikeHost(host)
  {
  }

  lemma SpelledIs(r: Reference)
    ensures Spelled(r) <==> WellFormed(r)
  {
    hide Matches;
    hide IsPath;
    hide IsTag;
    hide IsDigest;
    PathIs(r.path);
    if r.tag.Some? {
      TagIs(r.tag.value);
    }
    if r.digest.Some? {
      DigestIs(r.digest.value);
    }
  }

  lemma HostedIs(text: string, r: Reference)
    ensures Hosted(text, r)
            <==> Recognisable(r.registry) && text == r.registry + "/" + r.path + TagText(r.tag) + DigestText(r.digest)
  {
    hide Matches;
    hide IsRegistry;
    HostTaken(r.registry);
    RegistryIs(r.registry);
    hide TakenForHost;
    hide LooksLikeHost;
  }

  /** Nothing but blanks is cut off, and all of them. */
  lemma StripExactly(text: string) returns (left: string, right: string)
    ensures text == left + Strip(text) + right
    ensures forall i :: 0 <= i < |left| ==> IsSpace(left[i])
    ensures forall i :: 0 <= i < |right| ==> IsSpace(right[i])
    ensures Strip(text) != "" ==> !IsSpace(Strip(text)[0]) && !IsSpace(Strip(text)[|Strip(text)| - 1])
  {
    hide IsSpace;
    left := LeftCut(text);
    right := RightCut(StripLeft(text));
    var stripped := Strip(text);
    assert text == left + (stripped + right) == left + stripped + right;
    if stripped != "" {
      assert StripLeft(text)[0] == stripped[0];
    }
  }

  lemma {:induction false} LeftCut(text: string) returns (left: string)
    ensures text == left + StripLeft(text) && forall i :: 0 <= i < |left| ==> IsSpace(left[i])
    ensures StripLeft(text) != "" ==> !IsSpace(StripLeft(text)[0])
  {
    hide IsSpace;
    left := "";
    if text != "" && IsSpace(text[0]) {
      left := LeftCut(text[1..]);
      assert text == [text[0]] + (left + StripLeft(text[1..]));
      left := [text[0]] + left;
      assert text == left + StripLeft(text);
    }
  }

  lemma {:induction false} RightCut(text: string) returns (right: string)
    ensures text == StripRight(text) + right && forall i :: 0 <= i < |right| ==> IsSpace(right[i])
    ensures StripRight(text) != "" ==> !IsSpace(StripRight(text)[|StripRight(text)| - 1])
  {
    hide IsSpace;
    right := "";
    if text != "" && IsSpace(text[|text| - 1]) {
      right := RightCut(text[..|text| - 1]);
      assert text == StripRight(text) + (right + [text[|text| - 1]]);
      right := right + [text[|text| - 1]];
    }
  }

  // ---- from the text to the parts ---------------------------------------------------

  lemma DigestCut(text: string)
    requires CutDigest(text).Ok?
    ensures var (front, digest) := CutDigest(text).value;
            text == front + DigestText(digest) && (digest.Some? ==> IsDigest(digest.value))
  {
    var i := IndexOf(text, '@');
    if i < |text| {
      assert text == text[..i] + ([text[i]] + text[i + 1..]);
    }
    hide IsDigest;
  }

  lemma TagCut(text: string)
    requires CutTag(text).Ok?
    ensures var (front, tag) := CutTag(text).value;
            text == front + TagText(tag) && (tag.Some? ==> IsTag(tag.value))
  {
    var i := BehindLast(text, ':');
    if i > 0 {
      assert text == text[..i - 1] + ([text[i - 1]] + text[i..]);
    }
    hide IsTag;
  }

  lemma RegistryCut(text: string, fallback: string)
    requires CutRegistry(text, fallback).Ok?
    ensures var (registry, path) := CutRegistry(text, fallback).value;
            || (Recognisable(registry) && text == registry + "/" + path)
            || (registry == fallback && !NamesHost(text) && text == path)
  {
    var i := IndexOf(text, '/');
    hide LooksLikeHost;
    hide IsRegistry;
    if i < |text| && LooksLikeHost(text[..i]) {
      assert text == text[..i] + [text[i]] + text[i + 1..];
    }
    HostIs(text);
  }

  lemma StartsAtSlash(path: string, i: nat)
    requires i < |path| && path[i] == '/' && forall k :: 0 <= k < i ==> path[k] != '/'
    ensures StartsAt(path, path[..i], path[i + 1..])
  {
    var host, more := path[..i], path[i + 1..];
    assert path == host + "/" + more;
  }

  lemma HostFound(path: string)
    ensures var i := IndexOf(path, '/'); i < |path| ==> StartsAt(path, path[..i], path[i + 1..])
  {
    hide StartsAt;
    var i := IndexOf(path, '/');
    if i < |path| {
      StartsAtSlash(path, i);
    }
  }

  /** The first component, up to the first slash. */
  lemma HostIs(path: string)
    ensures var i := IndexOf(path, '/'); NamesHost(path) <==> i < |path| && LooksLikeHost(path[..i])
  {
    hide LooksLikeHost;
    hide IndexOf;
    hide StartsAt;
    var i := IndexOf(path, '/');
    HostFound(path);
    forall host: string, more: string | StartsAt(path, host, more)
      ensures i == |host| && i < |path| && path[..i] == host
    {
      HostEnds(path, host, more);
    }
    HostTaken(path[..i]);
    hide TakenForHost;
  }

  lemma HostEnds(path: string, host: string, more: string)
    requires StartsAt(path, host, more)
    ensures IndexOf(path, '/') == |host| && |host| < |path| && path[..|host|] == host
  {
    FirstIs(host, '/', more);
    assert path == host + ['/'] + more;
  }

  // ---- and back ------------------------------------------------------------------------

  lemma CutBareTag(path: string, tag: Option<string>)
    requires ':' !in path && (tag.Some? ==> IsTag(tag.value))
    ensures CutTag(path + TagText(tag)) == Ok((path, tag))
  {
    if tag.Some? {
      var text := path + ":" + tag.value;
      assert text == path + [':'] + tag.value == path + TagText(tag);
      TagIsClean(tag.value);
      LastIs(path, ':', tag.value);
      assert text[..|path|] == path && text[|path| + 1..] == tag.value;
    } else {
      assert path + TagText(tag) == path;
    }
  }

  lemma CutBareRegistry(path: string, fallback: string)
    requires !NamesHost(path)
    ensures CutRegistry(path, fallback) == Ok((fallback, path))
  {
    HostIs(path);
    hide LooksLikeHost;
  }

  lemma ParseSteps(text: string, fallback: string, digested: string, tagged: string, r: Reference)
    requires CutDigest(Strip(text)) == Ok((digested, r.digest)) && CutTag(digested) == Ok((tagged, r.tag))
    requires CutRegistry(tagged, fallback) == Ok((r.registry, r.path)) && IsPath(r.path)
    requires Strip(text) != ""
    ensures Parse(text, fallback) == Ok(r)
  {
    hide Strip;
    hide CutDigest;
    hide CutTag;
    hide CutRegistry;
    hide IsPath;
  }

  lemma CutBareDigest(front: string, digest: Option<string>)
    requires '@' !in front && (digest.Some? ==> IsDigest(digest.value))
    ensures CutDigest(front + DigestText(digest)) == Ok((front, digest))
  {
    hide IsDigest;
    hide CutDigest;
    CutShownDigest(front, digest);
    if digest.Some? {
      assert front + DigestText(digest) == front + "@" + digest.value;
    } else {
      assert front + DigestText(digest) == front;
    }
  }

  lemma FrontIsClean(r: Reference)
    requires WellFormed(r)
    ensures r.path != "" && ':' !in r.path && '@' !in r.path + TagText(r.tag)
  {
    hide IsPath;
    PathIsClean(r.path);
    if r.tag.Some? {
      hide IsTag;
      TagIsClean(r.tag.value);
    }
  }

  lemma DefaultedParses(text: string, r: Reference, fallback: string)
    requires WellFormed(r) && Defaulted(Strip(text), r, fallback)
    ensures Parse(text, fallback) == Ok(r)
  {
    hide Strip;
    hide IsPath;
    hide IsTag;
    hide IsDigest;
    hide NamesHost;
    hide CutDigest;
    hide CutTag;
    hide CutRegistry;
    hide Parse;
    hide TagText;
    hide DigestText;
    FrontIsClean(r);
    var front := r.path + TagText(r.tag);
    CutBareDigest(front, r.digest);
    CutBareTag(r.path, r.tag);
    CutBareRegistry(r.path, fallback);
    ParseSteps(text, fallback, front, r.path, r);
  }

  lemma HostedParses(text: string, r: Reference, fallback: string)
    requires WellFormed(r) && Hosted(Strip(text), r)
    ensures Parse(text, fallback) == Ok(r)
  {
    hide CutDigest;
    hide CutTag;
    hide CutRegistry;
    hide IsPath;
    hide IsTag;
    hide IsDigest;
    hide Print;
    hide Strip;
    hide Hosted;
    HostedIs(Strip(text), r);
    ParsePrinted(r, fallback);
    PrintedIs(r);
    Ends(r);
    StripNothing(Print(r));
  }

  lemma PrintedIs(r: Reference)
    requires WellFormed(r)
    ensures Print(r) == r.registry + "/" + r.path + TagText(r.tag) + DigestText(r.digest)
  {
    DigestGiven(r);
    hide IsTag;
    hide IsDigest;
    hide IsPath;
    var front := r.registry + "/" + r.path;
    assert r.tag.Some? ==> front + ":" + r.tag.value == front + TagText(r.tag);
    var tagged := front + TagText(r.tag);
    assert r.digest.Some? ==> tagged + "@" + r.digest.value == tagged + DigestText(r.digest);
    assert front + "" == front && tagged + "" == tagged;
  }

  /** A reference is read from exactly the texts that spell it: with a registry that
      docker recognises in front, or with none, on the default, where the path's first
      component could not be taken for a host. */
  lemma ParsesExactly(text: string, fallback: string, r: Reference)
    ensures Parse(text, fallback) == Ok(r)
            <==> Spelled(r) && (Hosted(Strip(text), r) || Defaulted(Strip(text), r, fallback))
  {
    hide Parse;
    hide Spelled;
    hide WellFormed;
    hide Hosted;
    hide Defaulted;
    hide Strip;
    SpelledIs(r);
    if Parse(text, fallback) == Ok(r) {
      ParsedIsWellFormed(text, fallback);
      ReadFrom(text, fallback);
    } else if WellFormed(r) && Hosted(Strip(text), r) {
      HostedParses(text, r, fallback);
    } else if WellFormed(r) && Defaulted(Strip(text), r, fallback) {
      DefaultedParses(text, r, fallback);
    }
  }

  lemma ReadFrom(text: string, fallback: string)
    requires Parse(text, fallback).Ok?
    ensures var r := Parse(text, fallback).value;
            Hosted(Strip(text), r) || Defaulted(Strip(text), r, fallback)
  {
    hide Strip;
    hide CutDigest;
    hide CutTag;
    hide CutRegistry;
    hide IsPath;
    hide NamesHost;
    hide Recognisable;
    hide Hosted;
    var stripped := Strip(text);
    DigestCut(stripped);
    var (front, digest) := CutDigest(stripped).value;
    TagCut(front);
    var (bare, tag) := CutTag(front).value;
    RegistryCut(bare, fallback);
    HostedIs(stripped, Parse(text, fallback).value);
  }
}
