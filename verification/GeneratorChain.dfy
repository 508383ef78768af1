/** Which tools wrote a build context (mcuhome/model/context.py,
    format_generator_chain and parse_generator_chain). */
module GeneratorChain {
  import opened Wrappers
  import opened Strings
  import opened Patterns

  datatype Entry = Entry(product: string, version: string)

  datatype Refusal = NoGenerator | NoSeparator(part: string) | BadProduct(product: string) | BadVersion(version: string)

  predicate IsAlnum(c: char) { 'a' <= c <= 'z' || '0' <= c <= '9' }

  predicate IsProduct(p: string) {
    && p != "" && IsAlnum(p[0])
    && forall i :: 0 <= i < |p| ==> IsAlnum(p[i]) || p[i] == '.' || p[i] == '_' || p[i] == '-'
  }

  predicate IsVersion(v: string) {
    v != "" && ':' !in v
  }

  function CheckEntry(e: Entry): Option<Refusal> {
    if !IsProduct(e.product) then Some(BadProduct(e.product))
    else if !IsVersion(e.version) then Some(BadVersion(e.version))
    else None
  }

  predicate Legal(e: Entry) {
    CheckEntry(e).None?
  }

  function Shown(e: Entry): string {
    e.product + ":" + e.version
  }

  function ShownAll(entries: seq<Entry>): (parts: seq<string>)
    ensures |parts| == |entries| && forall i :: 0 <= i < |parts| ==> parts[i] == Shown(entries[i])
  {
    seq(|entries|, i requires 0 <= i < |entries| => Shown(entries[i]))
  }

  /** format_generator_chain: the most recent first, and never empty. */
  function Format(entries: seq<Entry>): Result<string, Refusal> {
    if entries == [] then Err(NoGenerator)
    else if exists i :: 0 <= i < |entries| && !Legal(entries[i]) then
      Err(CheckEntry(FirstIllegal(entries)).value)
    else Ok(Join(ShownAll(entries), ';'))
  }

  function FirstIllegal(entries: seq<Entry>): (e: Entry)
    requires exists i :: 0 <= i < |entries| && !Legal(entries[i])
    ensures exists n :: 0 <= n < |entries| && entries[n] == e && !Legal(e) && forall i :: 0 <= i < n ==>
        Legal(entries[i])
  {
    if !Legal(entries[0]) then entries[0] else FirstIllegal(entries[1..])
  }

  /** One link: everything up to the first colon, and everything behind it. */
  function ParseEntry(part: string): Result<Entry, Refusal> {
    var i := IndexOf(part, ':');
    if i == |part| then Err(NoSeparator(part))
    else
      var e := Entry(part[..i], part[i + 1..]);
      if Legal(e) then Ok(e) else Err(CheckEntry(e).value)
  }

  /** What the loop of parse_generator_chain answers, for all inputs. */
  ghost predicate Parses(value: string, r: Result<seq<Entry>, Refusal>) {
    if value == "" then r == Err(NoGenerator)
    else
      var parts := Split(value, ';');
      match r
      case Ok(entries) =>
        |entries| == |parts| && forall i :: 0 <= i < |parts| ==> ParseEntry(parts[i]) == Ok(entries[i])
      case Err(refusal) =>
        exists n :: 0 <= n < |parts| && ParseEntry(parts[n]) == Err(refusal)
                    && forall i :: 0 <= i < n ==> ParseEntry(parts[i]).Ok?
  }

  method ParseChain(value: string) returns (r: Result<seq<Entry>, Refusal>)
    ensures Parses(value, r)
  {
    if value == "" {
      return Err(NoGenerator);
    }
    var entries := [];
    var parts := Split(value, ';');
    for n := 0 to |parts|
      invariant |entries| == n && forall i :: 0 <= i < n ==> ParseEntry(parts[i]) == Ok(entries[i])
    {
      var e := ParseEntry(parts[n]);
      if e.Err? {
        return Err(e.error);
      }
      entries := entries + [e.value];
    }
    return Ok(entries);
  }

  /** [a-z0-9][a-z0-9._-]* */
  function ProductPattern(): Pattern<char> {
    var alnums := Span('a', 'z') + Span('0', '9');
    Then(One(alnums), Repeat(One(alnums + {'.', '_', '-'}), 0, None))
  }

  lemma ProductIs(p: string)
    ensures IsProduct(p) <==> Matches(ProductPattern(), p)
  {
    var head := Span('a', 'z') + Span('0', '9');
    var rest := head + {'.', '_', '-'};
    HeadRun(head, rest, None, p);
    hide Matches;
    assert forall c :: c in head <==> IsAlnum(c);
    hide Span;
    hide IsAlnum;
    if p != "" && AllIn(p[1..], rest) && p[0] in head {
      forall k | 0 <= k < |p|
        ensures p[k] in rest
      {
        if k > 0 {
          assert p[1..][k - 1] in rest;
        }
      }
    }
  }

  /** A product by its pattern, and a version that is not empty and holds no colon. */
  ghost predicate Spelled(e: Entry) {
    Matches(ProductPattern(), e.product) && e.version != "" && ':' !in e.version
  }

  /** A link is what it names: product, colon, version. */
  lemma LinkIs(part: string, e: Entry)
    ensures ParseEntry(part) == Ok(e) <==> Spelled(e) && part == e.product + ":" + e.version
  {
    ProductIs(e.product);
    hide Matches;
    hide IsProduct;
    if ParseEntry(part) == Ok(e) {
      ShownParse(part);
    }
    if Legal(e) {
      ParseShown(e);
    }
  }

  /** And a chain is its links in the order they are written, the first one first. */
  lemma ChainIs(value: string, entries: seq<Entry>)
    ensures Parses(value, Ok(entries))
            <==> value != "" && |Split(value, ';')| == |entries|
                 && forall i :: 0 <= i < |entries| ==>
                      Spelled(entries[i]) && Split(value, ';')[i] == entries[i].product + ":" + entries[i].version
  {
    hide ParseEntry;
    hide Spelled;
    var parts := Split(value, ';');
    if |parts| == |entries| {
      forall i | 0 <= i < |parts|
        ensures ParseEntry(parts[i]) == Ok(entries[i])
                <==> Spelled(entries[i]) && parts[i] == entries[i].product + ":" + entries[i].version
      {
        LinkIs(parts[i], entries[i]);
      }
    }
  }

  // ---- the two undo each other ---------------------------------------------------

  lemma ParseShown(e: Entry)
    requires Legal(e)
    ensures ParseEntry(Shown(e)) == Ok(e)
  {
    assert ':' !in e.product;
    FirstIs(e.product, ':', e.version);
    assert e.product + [':'] + e.version == Shown(e);
    assert Shown(e)[..|e.product|] == e.product && Shown(e)[|e.product| + 1..] == e.version;
  }

  lemma ShownParse(part: string)
    requires ParseEntry(part).Ok?
    ensures Shown(ParseEntry(part).value) == part && Legal(ParseEntry(part).value)
  {
    var i := IndexOf(part, ':');
    assert part == part[..i] + [part[i]] + part[i + 1..];
  }

  /** What was parsed is printed back exactly. */
  lemma FormatParsed(value: string, entries: seq<Entry>)
    requires Parses(value, Ok(entries))
    ensures Format(entries) == Ok(value)
  {
    var parts := Split(value, ';');
    forall i | 0 <= i < |parts|
      ensures Shown(entries[i]) == parts[i] && Legal(entries[i])
    {
      ShownParse(parts[i]);
    }
    assert ShownAll(entries) == parts;
    JoinSplit(value, ';');
  }

  /** A version may hold a semicolon: the check does not refuse one. */
  predicate Splittable(entries: seq<Entry>) {
    forall i :: 0 <= i < |entries| ==> ';' !in entries[i].version
  }

  /** What was printed parses to the same entries exactly when no version holds
      a semicolon, and is refused otherwise: never to different ones. */
  lemma ParseFormatted(entries: seq<Entry>, r: Result<seq<Entry>, Refusal>)
    requires Format(entries).Ok? && Parses(Format(entries).value, r)
    ensures if Splittable(entries) then r == Ok(entries) else r.Err?
  {
    hide Splittable;
    var parts := ShownAll(entries);
    AllLegal(entries);
    hide Legal;
    JoinStarts(parts);
    if Splittable(entries) {
      SplitShown(entries);
      hide ParseEntry;
      if r.Ok? {
        assert r.value == entries;
      }
    } else {
      var k := SomeBroken(entries);
      hide ParseEntry;
    }
  }

  lemma AllLegal(entries: seq<Entry>)
    requires Format(entries).Ok?
    ensures forall i :: 0 <= i < |entries| ==> Legal(entries[i]) && ParseEntry(Shown(entries[i])) == Ok(entries[i])
    ensures Shown(entries[0]) != ""
  {
    forall i | 0 <= i < |entries|
      ensures Legal(entries[i]) && ParseEntry(Shown(entries[i])) == Ok(entries[i])
    {
      ParseShown(entries[i]);
    }
  }

  lemma SplitShown(entries: seq<Entry>)
    requires entries != [] && Splittable(entries) && forall i :: 0 <= i < |entries| ==> Legal(entries[i])
    ensures Split(Join(ShownAll(entries), ';'), ';') == ShownAll(entries)
  {
    var parts := ShownAll(entries);
    forall i | 0 <= i < |parts|
      ensures ';' !in parts[i]
    {
      NoSemicolon(entries[i]);
    }
    SplitJoin(parts, ';');
  }

  lemma SomeBroken(entries: seq<Entry>) returns (k: nat)
    requires !Splittable(entries) && forall i :: 0 <= i < |entries| ==> Legal(entries[i])
    ensures var parts := Split(Join(ShownAll(entries), ';'), ';');
            k < |parts| && ParseEntry(parts[k]).Err?
  {
    var n :| 0 <= n < |entries| && ';' in entries[n].version;
    k := BrokenPart(entries, n);
  }

  lemma NoSemicolon(e: Entry)
    requires Legal(e) && ';' !in e.version
    ensures ';' !in Shown(e)
  {
    assert Shown(e) == e.product + [':'] + e.version;
  }

  lemma JoinStarts(parts: seq<string>)
    requires parts != [] && parts[0] != ""
    ensures Join(parts, ';') != ""
  {
  }

  /** Splitting cuts a printed version behind its last semicolon, and what is
      behind it has no colon. */
  lemma {:induction false} BrokenPart(entries: seq<Entry>, n: nat) returns (k: nat)
    requires n < |entries| && ';' in entries[n].version && IsVersion(entries[n].version)
    ensures var parts := Split(Join(ShownAll(entries), ';'), ';');
            k < |parts| && ParseEntry(parts[k]).Err?
    decreases |entries|
  {
    var parts := ShownAll(entries);
    if n > 0 {
      k := BrokenPart(entries[1..], n - 1);
      assert parts[1..] == ShownAll(entries[1..]);
      var rest := Join(parts[1..], ';');
      SplitAppend(parts[0], rest, ';');
      assert Join(parts, ';') == parts[0] + [';'] + rest;
      k := k + |Split(parts[0], ';')|;
    } else {
      k := BrokenVersion(entries[0]);
      if |entries| > 1 {
        var rest := Join(parts[1..], ';');
        SplitAppend(parts[0], rest, ';');
        assert Join(parts, ';') == parts[0] + [';'] + rest;
      }
    }
  }

  lemma BrokenVersion(e: Entry) returns (k: nat)
    requires ';' in e.version && IsVersion(e.version)
    ensures k < |Split(Shown(e), ';')| && ParseEntry(Split(Shown(e), ';')[k]).Err?
  {
    var i := BehindLast(e.version, ';');
    var front, tail := e.product + [':'] + e.version[..i - 1], e.version[i..];
    assert e.version == e.version[..i - 1] + [';'] + tail;
    assert Shown(e) == front + [';'] + tail;
    SplitAppend(front, tail, ';');
    SplitFirst(tail, ';', []);
    k := |Split(front, ';')|;
    FirstIs(tail, ':', []);
  }

  /** A refused chain is the reading of no string, and what is refused is its
      first entry that is not legal. */
  lemma FormatRefuses(entries: seq<Entry>)
    requires Format(entries).Err?
    ensures forall value :: !Parses(value, Ok(entries))
    ensures entries != [] ==>
              exists n :: 0 <= n < |entries| && Some(Format(entries).error) == CheckEntry(entries[n])
                          && forall i :: 0 <= i < n ==> Legal(entries[i])
  {
    forall value | Parses(value, Ok(entries))
      ensures false
    {
      FormatParsed(value, entries);
    }
  }

  /** The chains some string reads as are those that print and hold no semicolon
      in a version, and each is the reading of one string. */
  lemma ReadableExactly(entries: seq<Entry>)
    ensures (exists value :: Parses(value, Ok(entries))) <==> Format(entries).Ok? && Splittable(entries)
    ensures forall a, b :: Parses(a, Ok(entries)) && Parses(b, Ok(entries)) ==> a == b
  {
    hide Splittable;
    forall value | Parses(value, Ok(entries))
      ensures Format(entries) == Ok(value) && Splittable(entries)
    {
      FormatParsed(value, entries);
      ParseFormatted(entries, Ok(entries));
    }
    if Format(entries).Ok? && Splittable(entries) {
      PrintedReads(entries);
    }
  }

  lemma PrintedReads(entries: seq<Entry>)
    requires Format(entries).Ok? && Splittable(entries)
    ensures Parses(Format(entries).value, Ok(entries))
  {
    AllLegal(entries);
    SplitShown(entries);
    JoinStarts(ShownAll(entries));
    hide Legal;
    hide ParseEntry;
  }

  /** Printing is injective wherever no version holds a semicolon. */
  lemma FormatInjective(a: seq<Entry>, b: seq<Entry>)
    requires Format(a).Ok? && Format(a) == Format(b) && Splittable(a)
    ensures a == b || !Splittable(b)
  {
    if Splittable(b) {
      AllLegal(a);
      AllLegal(b);
      hide Legal;
      hide ParseEntry;
      SplitShown(a);
      SplitShown(b);
      forall i | 0 <= i < |a|
        ensures a[i] == b[i]
      {
        assert ShownAll(a)[i] == ShownAll(b)[i];
      }
    }
  }
}
