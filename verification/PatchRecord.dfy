/** The record of a patched layer (mcuhome/compiler/abi.py, _write_json): its
    JSON text, and what any JSON reader makes of a part of it. */
module PatchRecord {

  datatype Phase = Started | Complete

  function PhaseText(p: Phase): string {
    match p
    case Started => "started"
    case Complete => "complete"
  }

  /** The inside of a JSON string: quotes and backslashes escaped. The escapes of
      other characters hold neither a bare quote nor an odd backslash, and are
      left out. */
  function Dumped(s: string): string {
    if s == [] then ""
    else (if s[0] == '"' || s[0] == '\\' then ['\\', s[0]] else [s[0]]) + Dumped(s[1..])
  }

  /** A key on its own line, up to the opening quote of its value. */
  function Key(name: string): string {
    "\n  " + "\"" + name + "\"" + ": " + "\""
  }

  /** Everything up to the state's value, which all records of a layer share. */
  function Front(layer: string, digest: string): string {
    Key("layer") + Dumped(layer) + "\"" + "," + Key("patchset") + Dumped(digest) + "\"" + "," + Key("state")
  }

  /** json.dumps(..., indent=2) and a newline. */
  function Document(layer: string, digest: string, p: Phase): string {
    "{" + (Front(layer, digest) + PhaseText(p) + "\"" + "\n") + "}\n"
  }

  /** What reading a record back says. A document cut short is no JSON object
      unless all that is missing is the newline behind its closing brace. */
  predicate ReadsComplete(layer: string, digest: string, text: string) {
    var document := Document(layer, digest, Complete);
    text == document || text == document[..|document| - 1]
  }

  /** No part of a started record reads as complete. */
  lemma StartedIsNotComplete(layer: string, digest: string, n: nat)
    requires n <= |Document(layer, digest, Started)|
    ensures !ReadsComplete(layer, digest, Document(layer, digest, Started)[..n])
  {
    var front := "{" + Front(layer, digest);
    var started, complete := Document(layer, digest, Started), Document(layer, digest, Complete);
    hide Front;
    assert started == front + ("started" + "\"" + "\n" + "}\n");
    assert complete == front + ("complete" + "\"" + "\n" + "}\n");
    assert started[|front|] == 's' && complete[|front|] == 'c';
  }

  // ---- what a record says ------------------------------------------------------------

  datatype Read = Read(value: string, rest: string) | Unreadable

  /** A JSON string up to its closing quote. */
  function ReadString(text: string): Read
    decreases |text|
  {
    if text == "" then Unreadable
    else if text[0] == '"' then Read("", text[1..])
    else if text[0] != '\\' then Behind(text[0], ReadString(text[1..]))
    else if |text| > 1 && (text[1] == '"' || text[1] == '\\') then Behind(text[1], ReadString(text[2..]))
    else Unreadable
  }

  function Behind(c: char, r: Read): Read {
    if r.Read? then Read([c] + r.value, r.rest) else Unreadable
  }

  /** The string behind `sign`, if that is what the text starts with. */
  function ReadAfter(sign: string, text: string): Read {
    if sign <= text then ReadString(text[|sign|..]) else Unreadable
  }

  datatype Fields = Fields(layer: string, patchset: string, state: string) | NoFields

  /** Three strings, each behind its sign, and nothing behind `last`. */
  function ReadThree(one: string, two: string, three: string, last: string, text: string): Fields {
    var layer := ReadAfter(one, text);
    if !layer.Read? then NoFields
    else
      var patchset := ReadAfter(two, layer.rest);
      if !patchset.Read? then NoFields
      else
        var state := ReadAfter(three, patchset.rest);
        if state.Read? && state.rest == last then Fields(layer.value, patchset.value, state.value) else NoFields
  }

  /** The three fields of a record by their names, on a line each. */
  function ReadFields(text: string): Fields {
    ReadThree("{\n  \"layer\": \"", ",\n  \"patchset\": \"", ",\n  \"state\": \"", "\n}\n", text)
  }

  lemma {:induction false} DumpedReadsBack(s: string, rest: string)
    ensures ReadString(Dumped(s) + ("\"" + rest)) == Read(s, rest)
    decreases |s|
  {
    if s == "" {
      assert Dumped(s) + ("\"" + rest) == "\"" + rest && ("\"" + rest)[1..] == rest;
    } else {
      DumpedReadsBack(s[1..], rest);
      var more := Dumped(s[1..]) + ("\"" + rest);
      hide Dumped;
      EscapedReadsBack(s[0], s[1..], rest, more);
      assert [s[0]] + s[1..] == s;
    }
  }

  lemma EscapedReadsBack(c: char, s: string, rest: string, more: string)
    requires ReadString(more) == Read(s, rest) && more == Dumped(s) + ("\"" + rest)
    ensures ReadString(Dumped([c] + s) + ("\"" + rest)) == Read([c] + s, rest)
  {
    assert ([c] + s)[0] == c && ([c] + s)[1..] == s;
    var shown := if c == '"' || c == '\\' then ['\\', c] else [c];
    var text := shown + more;
    Grouped(shown, Dumped(s), "\"" + rest);
    assert Dumped([c] + s) == shown + Dumped(s);
    hide Dumped;
    assert text[0] == shown[0] && text[|shown|..] == more;
    if |shown| == 2 {
      assert text[1] == c;
    }
  }

  lemma {:induction false} BareIsDumped(s: string)
    requires forall i :: 0 <= i < |s| ==> s[i] != '"' && s[i] != '\\'
    ensures Dumped(s) == s
    decreases |s|
  {
    if s != "" {
      BareIsDumped(s[1..]);
      assert s == [s[0]] + s[1..];
    }
  }

  lemma ReadsNext(sign: string, value: string, rest: string)
    ensures ReadAfter(sign, sign + (Dumped(value) + ("\"" + rest))) == Read(value, rest)
  {
    var more := Dumped(value) + ("\"" + rest);
    DumpedReadsBack(value, rest);
    hide ReadString;
    hide Dumped;
    assert (sign + more)[|sign|..] == more;
  }

  lemma Grouped(a: string, b: string, c: string)
    ensures (a + b) + c == a + (b + c)
  {
  }

  /** A field, taken out of what is in front of it. */
  lemma FieldOut(front: string, key: string, value: string, quote: string, comma: string, more: string)
    ensures (front + key + value + quote + comma) + more == front + (key + (value + (quote + (comma + more))))
  {
    Grouped(front + key + value + quote, comma, more);
    Grouped(front + key + value, quote, comma + more);
    Grouped(front + key, value, quote + (comma + more));
    Grouped(front, key, value + (quote + (comma + more)));
  }

  lemma Signs()
    ensures "{" + Key("layer") == "{\n  \"layer\": \""
    ensures "," + Key("patchset") == ",\n  \"patchset\": \""
    ensures "," + Key("state") == ",\n  \"state\": \""
    ensures "\n" + "}\n" == "\n}\n"
  {
  }

  lemma SpelledOut(layer: string, digest: string, p: Phase)
    ensures Document(layer, digest, p)
            == ("{" + Key("layer")) + (Dumped(layer) + ("\"" +
               (("," + Key("patchset")) + (Dumped(digest) + ("\"" +
               (("," + Key("state")) + (PhaseText(p) + ("\"" + ("\n" + "}\n")))))))))
  {
    hide Dumped;
    hide PhaseText;
    hide Key;
    var one, two, three := Key("layer"), Key("patchset"), Key("state");
    var first := one + Dumped(layer) + "\"" + ",";
    var second := first + two + Dumped(digest) + "\"" + ",";
    var last := PhaseText(p) + ("\"" + ("\n" + "}\n"));
    assert Front(layer, digest) == second + three;
    hide Front;
    FieldOut(second, three, PhaseText(p), "\"", "\n", "}\n");
    var more := three + last;
    FieldOut(first, two, Dumped(digest), "\"", ",", more);
    Grouped(",", three, last);
    var rest := two + (Dumped(digest) + ("\"" + ("," + more)));
    FieldOut([], one, Dumped(layer), "\"", ",", rest);
    assert [] + one == one;
    Grouped(",", two, Dumped(digest) + ("\"" + ("," + more)));
    Grouped("{", Front(layer, digest) + PhaseText(p) + "\"" + "\n", "}\n");
    Grouped("{", one, Dumped(layer) + ("\"" + ("," + rest)));
    assert Document(layer, digest, p) == "{" + (second + more);
    assert second + more == first + rest;
  }

  lemma ThreeReadBack(one: string, two: string, three: string, last: string, layer: string, digest: string,
                      state: string)
    ensures ReadThree(one, two, three, last,
                      one + (Dumped(layer) + ("\"" +
                      (two + (Dumped(digest) + ("\"" +
                      (three + (Dumped(state) + ("\"" + last)))))))))
            == Fields(layer, digest, state)
  {
    hide ReadAfter;
    hide Dumped;
    var behind := three + (Dumped(state) + ("\"" + last));
    ReadsNext(one, layer, two + (Dumped(digest) + ("\"" + behind)));
    ReadsNext(two, digest, behind);
    ReadsNext(three, state, last);
  }

  /** A record says which layer it is of, which patches, and how far they are. */
  lemma RecordReadsBack(layer: string, digest: string, p: Phase)
    ensures ReadFields(Document(layer, digest, p)) == Fields(layer, digest, PhaseText(p))
  {
    PhaseIsDumped(p);
    hide ReadThree;
    hide Dumped;
    hide PhaseText;
    Signs();
    SpelledOut(layer, digest, p);
    ThreeReadBack("{" + Key("layer"), "," + Key("patchset"), "," + Key("state"), "\n" + "}\n", layer, digest,
                  PhaseText(p));
    hide Key;
    hide Document;
  }

  lemma PhaseIsDumped(p: Phase)
    ensures Dumped(PhaseText(p)) == PhaseText(p)
  {
    hide Dumped;
    BareIsDumped(PhaseText(p));
  }

  // ---- where a JSON text can end -------------------------------------------------

  /** How far a JSON text has come: open braces, and whether inside a string and
      behind a backslash. */
  datatype Lex = Lex(depth: int, quoted: bool, escaped: bool)

  const OBJECT := Lex(1, false, false)
  const VALUE := Lex(1, true, false)

  function Feed(l: Lex, c: char): Lex {
    if l.quoted then
      if l.escaped then l.(escaped := false)
      else if c == '\\' then l.(escaped := true)
      else l.(quoted := c != '"')
    else if c == '"' then l.(quoted := true)
    else l.(depth := l.depth + if c == '{' then 1 else if c == '}' then -1 else 0)
  }

  function Scan(l: Lex, text: string): Lex
    decreases |text|
  {
    if text == "" then l else Scan(Feed(l, text[0]), text[1..])
  }

  /** The text stops inside a string or an object. */
  predicate Unfinished(text: string) {
    var l := Scan(Lex(0, false, false), text);
    text == "" || l.quoted || l.depth > 0
  }

  /** A reader that follows the grammar: it finds the state of a whole record,
      with or without the newline behind it, and reads no text that stops inside
      a string or an object. */
  ghost predicate Follows(reader: string -> bool, layer: string, digest: string) {
    && (forall text :: Unfinished(text) ==> !reader(text))
    && forall p: Phase :: var document := Document(layer, digest, p);
                          reader(document) == reader(document[..|document| - 1]) == p.Complete?
  }

  lemma {:induction false} ScanTwo(l: Lex, a: string, b: string)
    ensures Scan(l, a + b) == Scan(Scan(l, a), b)
    decreases |a|
  {
    if a == [] {
      assert a + b == b;
    } else {
      assert (a + b)[0] == a[0] && (a + b)[1..] == a[1..] + b;
      ScanTwo(Feed(l, a[0]), a[1..], b);
    }
  }

  /** At every point of the text the lexer is in an open object. */
  ghost predicate StaysOpen(l: Lex, text: string) {
    forall n :: 0 <= n <= |text| ==> Scan(l, text[..n]).depth > 0
  }

  /** The text takes the lexer from one place to another, in an open object all
      the way. */
  ghost predicate Crosses(l: Lex, text: string, r: Lex) {
    StaysOpen(l, text) && Scan(l, text) == r
  }

  lemma Both(l: Lex, a: string, m: Lex, b: string, r: Lex)
    requires Crosses(l, a, m) && Crosses(m, b, r)
    ensures Crosses(l, a + b, r)
  {
    ScanTwo(l, a, b);
    forall n | 0 <= n <= |a + b|
      ensures Scan(l, (a + b)[..n]).depth > 0
    {
      if n <= |a| {
        assert (a + b)[..n] == a[..n];
      } else {
        assert (a + b)[..n] == a + b[..n - |a|];
        ScanTwo(l, a, b[..n - |a|]);
      }
    }
  }

  predicate Bare(c: char) {
    c != '"' && c != '\\' && c != '{' && c != '}'
  }

  lemma OneStep(l: Lex, c: char)
    requires l.depth > 0 && Feed(l, c).depth > 0
    ensures Crosses(l, [c], Feed(l, c))
  {
    assert [c][1..] == [] && [c][..1] == [c] && [c][..0] == [];
    assert Scan(l, [c]) == Scan(Feed(l, c), []);
  }

  lemma {:induction false} PassBare(l: Lex, text: string)
    requires l.depth > 0 && !l.escaped && forall i :: 0 <= i < |text| ==> Bare(text[i])
    ensures Crosses(l, text, l)
    decreases |text|
  {
    if text != "" {
      OneStep(l, text[0]);
      PassBare(l, text[1..]);
      Both(l, [text[0]], l, text[1..], l);
      assert text == [text[0]] + text[1..];
    }
  }

  /** Inside a string whatever was dumped is passed over, braces and all. */
  lemma {:induction false} PassDumped(s: string)
    ensures Crosses(VALUE, Dumped(s), VALUE)
    decreases |s|
  {
    if s != "" {
      var c := s[0];
      PassDumped(s[1..]);
      hide StaysOpen;
      hide Scan;
      OneStep(VALUE, c);
      if c == '"' || c == '\\' {
        OneStep(VALUE, '\\');
        OneStep(Feed(VALUE, '\\'), c);
        Both(VALUE, ['\\'], Feed(VALUE, '\\'), [c], VALUE);
        assert ['\\'] + [c] == ['\\', c];
        Both(VALUE, ['\\', c], VALUE, Dumped(s[1..]), VALUE);
      } else {
        Both(VALUE, [c], VALUE, Dumped(s[1..]), VALUE);
      }
    }
  }

  lemma PassQuote(text: string, l: Lex, r: Lex)
    requires l in {OBJECT, VALUE} && r in {OBJECT, VALUE} && l != r
    requires forall i :: 0 <= i < |text| ==> Bare(text[i])
    ensures Crosses(l, text + "\"", r)
  {
    PassBare(l, text);
    OneStep(l, '"');
    Both(l, text, l, "\"", r);
  }

  lemma PassKey(name: string)
    requires forall i :: 0 <= i < |name| ==> Bare(name[i])
    ensures Crosses(OBJECT, Key(name), VALUE)
  {
    hide StaysOpen;
    hide Scan;
    PassQuote("\n  ", OBJECT, VALUE);
    PassQuote(name, VALUE, OBJECT);
    PassQuote(": ", OBJECT, VALUE);
    Both(OBJECT, "\n  " + "\"", VALUE, name + "\"", OBJECT);
    Both(OBJECT, "\n  " + "\"" + (name + "\""), OBJECT, ": " + "\"", VALUE);
    assert Key(name) == "\n  " + "\"" + (name + "\"") + (": " + "\"");
  }

  /** A value, its closing quote and what is behind it. */
  lemma PassValue(s: string, behind: string)
    requires Crosses(VALUE, s, VALUE) && forall i :: 0 <= i < |behind| ==> Bare(behind[i])
    ensures Crosses(VALUE, s + "\"" + behind, OBJECT)
  {
    hide StaysOpen;
    hide Scan;
    OneStep(VALUE, '"');
    PassBare(OBJECT, behind);
    Both(VALUE, s, VALUE, "\"", OBJECT);
    Both(VALUE, s + "\"", OBJECT, behind, OBJECT);
  }

  lemma PassFront(layer: string, digest: string)
    ensures Crosses(OBJECT, Front(layer, digest), VALUE)
  {
    hide StaysOpen;
    hide Scan;
    hide Crosses;
    PassKey("layer");
    PassKey("patchset");
    PassKey("state");
    hide Key;
    PassDumped(layer);
    PassDumped(digest);
    hide Dumped;
    var one, two := Dumped(layer) + "\"" + ",", Dumped(digest) + "\"" + ",";
    PassValue(Dumped(layer), ",");
    PassValue(Dumped(digest), ",");
    Both(OBJECT, Key("layer"), VALUE, one, OBJECT);
    Both(OBJECT, Key("layer") + one, OBJECT, Key("patchset"), VALUE);
    Both(OBJECT, Key("layer") + one + Key("patchset"), VALUE, two, OBJECT);
    Both(OBJECT, Key("layer") + one + Key("patchset") + two, OBJECT, Key("state"), VALUE);
    assert Front(layer, digest) == Key("layer") + one + Key("patchset") + two + Key("state");
  }

  /** A record without its closing brace is unfinished. */
  lemma CutIsUnfinished(layer: string, digest: string, p: Phase, n: nat)
    requires n + 1 < |Document(layer, digest, p)|
    ensures Unfinished(Document(layer, digest, p)[..n])
  {
    var front := Front(layer, digest);
    PassFront(layer, digest);
    hide Front;
    PassBare(VALUE, PhaseText(p));
    PassValue(PhaseText(p), "\n");
    var last := PhaseText(p) + "\"" + "\n";
    Both(OBJECT, front, VALUE, last, OBJECT);
    var body, document := front + PhaseText(p) + "\"" + "\n", Document(layer, digest, p);
    assert body == front + last && document == "{" + body + "}\n";
    if n > 0 {
      var cut := document[..n];
      assert cut == "{" + body[..n - 1];
      assert Feed(Lex(0, false, false), '{') == OBJECT;
      assert cut[1..] == body[..n - 1];
    }
  }

  /** Whatever the reader, of a record cut anywhere it finds what the predicate
      above says. */
  lemma AnyReaderAgrees(reader: string -> bool, layer: string, digest: string, p: Phase, n: nat)
    requires Follows(reader, layer, digest) && n <= |Document(layer, digest, p)|
    ensures var text := Document(layer, digest, p)[..n];
            reader(text) <==> ReadsComplete(layer, digest, text)
  {
    hide Front;
    hide Unfinished;
    var document := Document(layer, digest, p);
    if n + 1 < |document| {
      CutIsUnfinished(layer, digest, p, n);
    } else {
      assert document[..|document|] == document;
    }
    if p.Started? {
      StartedIsNotComplete(layer, digest, n);
    }
    hide Document;
  }
}
