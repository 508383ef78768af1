/** Which of the many texts of a document the canonical one is (RFC 8785,
    mcuhome/model/context.py, canonical_json and context_id): the shortest escapes
    in lowercase, nothing between the tokens, and every word of the document. */
module CanonicalForm {
  import opened Wrappers
  import opened Utf8
  import opened CanonicalJson
  import opened ContextId

  // ---- the escapes ---------------------------------------------------------------

  /** The whole text is one character to a JSON reader. */
  predicate Reads(e: Text, c: CodePoint) {
    ReadOne(e) == Some((c, |e|))
  }

  ghost predicate Shortest(e: Text, c: CodePoint) {
    Reads(e, c) && forall f :: Reads(f, c) ==> |e| <= |f|
  }

  predicate NoCapitals(e: Text) {
    forall i :: 0 <= i < |e| ==> !('A' as int <= e[i] <= 'F' as int)
  }

  lemma ReadsBack(c: CodePoint)
    ensures Reads(EscapeOne(c), c)
  {
    ReadEscaped(c, []);
    assert EscapeOne(c) + [] == EscapeOne(c);
  }

  /** What a JSON reader takes for a character, by its length. */
  lemma Readings(e: Text, c: CodePoint)
    requires Reads(e, c)
    ensures |e| == 1 || |e| == 2 || |e| == 6
    ensures |e| == 1 ==> e == [c] && c >= 0x20 && c != 0x22 && c != 0x5C
    ensures |e| == 2 ==> e[0] == 0x5C && (c in {0x22, 0x5C, 0x2F} ==> e[1] == c)
    ensures |e| == 2 ==> c in {0x22, 0x5C, 0x2F, 0x08, 0x0C, 0x0A, 0x0D, 0x09}
    ensures |e| == 2 && c < 0x20 ==> e == EscapeOne(c)
    ensures |e| == 6 ==> e[0] == 0x5C && e[1] == 0x75 && HexValues(e[2..6]) == Some(c)
  {
  }

  lemma NoneShorter(c: CodePoint, e: Text)
    requires Reads(e, c)
    ensures |EscapeOne(c)| <= |e|
  {
    Readings(e, c);
  }

  /** Two spellings of one number in four digits without capitals are one. */
  lemma HexUnique(a: Text, b: Text)
    requires |a| == |b| == 4 && HexValues(a).Some? && HexValues(a) == HexValues(b) && NoCapitals(a) && NoCapitals(b)
    ensures a == b
  {
    forall i | 0 <= i < 4
      ensures HexValue(a[i]).Some? && HexValue(b[i]).Some?
    {
    }
    var p, q := Values(a), Values(b);
    assert p.0 == q.0 && p.1 == q.1 && p.2 == q.2 && p.3 == q.3;
    forall i | 0 <= i < 4
      ensures a[i] == b[i]
    {
      OneDigit(a[i], b[i]);
    }
  }

  function Values(s: Text): (v: (int, int, int, int))
    requires |s| == 4 && HexValues(s).Some?
    ensures 0 <= v.0 < 16 && 0 <= v.1 < 16 && 0 <= v.2 < 16 && 0 <= v.3 < 16
    ensures HexValues(s) == Some(v.0 * 4096 + v.1 * 256 + v.2 * 16 + v.3)
  {
    (HexValue(s[0]).value, HexValue(s[1]).value, HexValue(s[2]).value, HexValue(s[3]).value)
  }

  lemma OneDigit(a: CodePoint, b: CodePoint)
    requires HexValue(a).Some? && HexValue(a) == HexValue(b)
    requires !('A' as int <= a <= 'F' as int) && !('A' as int <= b <= 'F' as int)
    ensures a == b
  {
  }

  lemma EscapeHasNoCapitals(c: CodePoint)
    ensures |EscapeOne(c)| != 1 ==> NoCapitals(EscapeOne(c))
  {
  }

  lemma OwnIsShortest(c: CodePoint)
    ensures Shortest(EscapeOne(c), c)
  {
    ReadsBack(c);
    hide Reads;
    hide EscapeOne;
    forall f | Reads(f, c)
      ensures |EscapeOne(c)| <= |f|
    {
      NoneShorter(c, f);
    }
  }

  lemma OneOfALength(c: CodePoint, e: Text, f: Text)
    requires Reads(e, c) && Reads(f, c) && |e| == |f|
    requires |e| == 1 || (NoCapitals(e) && NoCapitals(f))
    ensures e == f
  {
    Readings(e, c);
    Readings(f, c);
    hide Reads;
    if |e| == 6 {
      HexUnique(e[2..6], f[2..6]);
      assert e == [0x5C, 0x75] + e[2..6] && f == [0x5C, 0x75] + f[2..6];
    }
  }

  /** Of all texts a JSON reader takes for a character, the printed one is the only
      shortest one without a capital hexadecimal digit. */
  lemma EscapeExactly(c: CodePoint, e: Text)
    ensures e == EscapeOne(c) <==> Shortest(e, c) && (|e| == 1 || NoCapitals(e))
  {
    OwnIsShortest(c);
    EscapeHasNoCapitals(c);
    hide Reads;
    hide EscapeOne;
    hide NoCapitals;
    if Shortest(e, c) && (|e| == 1 || NoCapitals(e)) {
      OneOfALength(c, e, EscapeOne(c));
    }
  }

  /** A reader takes a capital digit for the small one: the printed form is a choice. */
  lemma CapitalsReadAlike(c: CodePoint)
    requires 'A' as int <= c <= 'F' as int
    ensures HexValue(c) == HexValue(c + 'a' as int - 'A' as int) != None
  {
  }

  // ---- nothing between the tokens ------------------------------------------------

  /** A JSON text read so far: inside a string, behind a backslash in one. */
  datatype Lex = Lex(quoted: bool, escaped: bool)

  const BARE := Lex(false, false)
  const STRING := Lex(true, false)

  function Feed(l: Lex, c: CodePoint): Lex {
    if !l.quoted then Lex(c == QUOTE, false)
    else if l.escaped then STRING
    else Lex(c != QUOTE, c == 0x5C)
  }

  predicate IsToken(c: CodePoint) {
    c in {0x22, 0x2C, 0x3A, 0x5B, 0x5D, 0x7B, 0x7D}
  }

  /** Outside its strings the text has nothing but quotes, commas, colons,
      brackets and braces. */
  predicate Tight(l: Lex, text: Text)
    decreases |text|
  {
    text == [] || ((l.quoted || IsToken(text[0])) && Tight(Feed(l, text[0]), text[1..]))
  }

  lemma Token(c: CodePoint, rest: Text)
    requires IsToken(c) && c != QUOTE && Tight(BARE, rest)
    ensures Tight(BARE, [c] + rest)
  {
    assert ([c] + rest)[1..] == rest;
  }

  lemma TightEscape(c: CodePoint, rest: Text)
    requires Tight(STRING, rest)
    ensures Tight(STRING, EscapeOne(c) + rest)
  {
    var e := EscapeOne(c);
    var text := e + rest;
    assert text[1..] == e[1..] + rest;
    if |e| == 1 {
      assert text[1..] == rest;
    } else {
      assert text[2..] == e[2..] + rest && text[1..][1..] == text[2..];
      if |e| == 6 {
        InString(e[2..], rest);
      } else {
        assert text[2..] == rest;
      }
    }
  }

  lemma {:induction false} InString(plain: Text, rest: Text)
    requires Tight(STRING, rest) && forall i :: 0 <= i < |plain| ==> plain[i] != QUOTE && plain[i] != 0x5C
    ensures Tight(STRING, plain + rest)
    decreases |plain|
  {
    if plain == [] {
      assert plain + rest == rest;
    } else {
      InString(plain[1..], rest);
      assert (plain + rest)[1..] == plain[1..] + rest;
    }
  }

  lemma {:induction false} TightEscaped(s: Text, rest: Text)
    requires Tight(STRING, rest)
    ensures Tight(STRING, Escaped(s, rest))
  {
    if s != [] {
      TightEscaped(s[1..], rest);
      TightEscape(s[0], Escaped(s[1..], rest));
    }
  }

  lemma TightQuoted(s: Text, rest: Text)
    requires Tight(BARE, rest)
    ensures Tight(BARE, Quoted(s, rest))
  {
    assert ([QUOTE] + rest)[1..] == rest;
    assert Tight(STRING, [QUOTE] + rest);
    TightEscaped(s, [QUOTE] + rest);
    assert Quoted(s, rest)[1..] == Escaped(s, [QUOTE] + rest);
  }

  /** A printed value has no blank between its tokens, whatever follows. */
  lemma {:induction false} PrintIsTight(j: Json, rest: Text)
    requires Tight(BARE, rest)
    ensures Tight(BARE, Print(j, rest))
    decreases j, 1
  {
    match j {
      case Str(text) => TightQuoted(text, rest);
      case Arr(items) =>
        if items.NoItems? {
          Token(0x5D, rest);
          Token(0x5B, [0x5D] + rest);
          assert [0x5B] + ([0x5D] + rest) == [0x5B, 0x5D] + rest;
        } else {
          ItemsAreTight(items, rest);
          Token(0x5B, PrintItems(items, rest));
        }
      case Obj(fields) =>
        if fields.NoFields? {
          Token(0x7D, rest);
          Token(0x7B, [0x7D] + rest);
          assert [0x7B] + ([0x7D] + rest) == [0x7B, 0x7D] + rest;
        } else {
          FieldsAreTight(fields, rest);
          Token(0x7B, PrintFields(fields, rest));
        }
    }
  }

  lemma {:induction false} ItemsAreTight(items: Items, rest: Text)
    requires items.Item? && Tight(BARE, rest)
    ensures Tight(BARE, PrintItems(items, rest))
    decreases items, 0
  {
    if items.tail.NoItems? {
      Token(0x5D, rest);
      PrintIsTight(items.head, [0x5D] + rest);
    } else {
      ItemsAreTight(items.tail, rest);
      Token(COMMA, PrintItems(items.tail, rest));
      PrintIsTight(items.head, [COMMA] + PrintItems(items.tail, rest));
    }
  }

  lemma {:induction false} FieldsAreTight(fields: Fields, rest: Text)
    requires fields.Field? && Tight(BARE, rest)
    ensures Tight(BARE, PrintFields(fields, rest))
    decreases fields, 0
  {
    var behind := if fields.rest.NoFields? then [0x7D] + rest else [COMMA] + PrintFields(fields.rest, rest);
    if fields.rest.NoFields? {
      Token(0x7D, rest);
    } else {
      FieldsAreTight(fields.rest, rest);
      Token(COMMA, PrintFields(fields.rest, rest));
    }
    PrintIsTight(fields.value, behind);
    Token(COLON, Print(fields.value, behind));
    TightQuoted(fields.key, [COLON] + Print(fields.value, behind));
  }

  lemma CanonicalIsTight(j: Json)
    ensures Tight(BARE, Canonical(j))
  {
    PrintIsTight(Normal(j), []);
  }

  // ---- the words of the document ---------------------------------------------------

  /** A name is printed as it is. */
  predicate Plain(s: string) {
    forall i :: 0 <= i < |s| ==> ' ' <= s[i] && s[i] != '"' && s[i] != '\\'
  }

  lemma {:induction false} PlainEscaped(s: string, rest: Text)
    requires Plain(s)
    ensures Escaped(Word(s), rest) == Word(s) + rest
    decreases |s|
  {
    if s == "" {
      assert Word(s) + rest == rest;
    } else {
      PlainEscaped(s[1..], rest);
      assert Word(s)[1..] == Word(s[1..]);
      assert Word(s) + rest == [Word(s)[0]] + (Word(s[1..]) + rest);
    }
  }

  /** A quoted string, its quotes and all. */
  function Literal(s: Text): Text {
    Quoted(s, [])
  }

  lemma {:induction false} EscapedRest(s: Text, a: Text, b: Text)
    ensures Escaped(s, a + b) == Escaped(s, a) + b
  {
    if s != [] {
      EscapedRest(s[1..], a, b);
      assert EscapeOne(s[0]) + (Escaped(s[1..], a) + b) == EscapeOne(s[0]) + Escaped(s[1..], a) + b;
    }
  }

  lemma QuotedRest(s: Text, rest: Text)
    ensures Quoted(s, rest) == Literal(s) + rest
  {
    EscapedRest(s, [QUOTE], rest);
    assert [QUOTE] + [] == [QUOTE];
    assert [QUOTE] + (Escaped(s, [QUOTE]) + rest) == [QUOTE] + Escaped(s, [QUOTE]) + rest;
  }

  lemma QuotedName(s: string, rest: Text)
    requires Plain(s)
    ensures Quoted(Word(s), rest) == Word("\"" + s + "\"") + rest
  {
    PlainEscaped(s, [QUOTE] + rest);
    assert [QUOTE] + (Word(s) + ([QUOTE] + rest)) == Word("\"" + s + "\"") + rest;
  }

  function Shown(j: Json): Text {
    Print(j, [])
  }

  lemma Assoc(a: Text, b: Text, c: Text)
    ensures a + (b + c) == a + b + c
  {
  }

  lemma {:induction false} PrintRest(j: Json, rest: Text)
    ensures Print(j, rest) == Shown(j) + rest
    decreases j, 1
  {
    match j {
      case Str(text) => QuotedRest(text, rest);
      case Arr(items) =>
        if items.Item? {
          ItemsRest(items, rest);
          Assoc([0x5B], PrintItems(items, []), rest);
        } else {
          assert [0x5B, 0x5D] + [] == [0x5B, 0x5D];
        }
      case Obj(fields) =>
        if fields.Field? {
          FieldsRest(fields, rest);
          Assoc([0x7B], PrintFields(fields, []), rest);
        } else {
          assert [0x7B, 0x7D] + [] == [0x7B, 0x7D];
        }
    }
  }

  /** What is behind a value in an array, and in an object. */
  function Behind(items: Items, rest: Text): Text {
    if items.NoItems? then [0x5D] + rest else [COMMA] + PrintItems(items, rest)
  }

  function Further(fields: Fields, rest: Text): Text {
    if fields.NoFields? then [0x7D] + rest else [COMMA] + PrintFields(fields, rest)
  }

  lemma {:induction false} ItemsRest(items: Items, rest: Text)
    requires items.Item?
    ensures PrintItems(items, rest) == PrintItems(items, []) + rest
    ensures PrintItems(items, []) == Shown(items.head) + Behind(items.tail, [])
    decreases items, 0
  {
    assert Behind(items.tail, rest) == Behind(items.tail, []) + rest by {
      if items.tail.Item? {
        ItemsRest(items.tail, rest);
        Assoc([COMMA], PrintItems(items.tail, []), rest);
      }
    }
    PrintRest(items.head, Behind(items.tail, rest));
    PrintRest(items.head, Behind(items.tail, []));
    Assoc(Shown(items.head), Behind(items.tail, []), rest);
  }

  lemma {:induction false} FieldsRest(fields: Fields, rest: Text)
    requires fields.Field?
    ensures PrintFields(fields, rest) == PrintFields(fields, []) + rest
    ensures PrintFields(fields, [])
            == Literal(fields.key) + ([COLON] + (Shown(fields.value) + Further(fields.rest, [])))
    decreases fields, 0
  {
    assert Further(fields.rest, rest) == Further(fields.rest, []) + rest by {
      if fields.rest.Field? {
        FieldsRest(fields.rest, rest);
        Assoc([COMMA], PrintFields(fields.rest, []), rest);
      }
    }
    ValueRest(fields.key, fields.value, Further(fields.rest, rest));
    ValueRest(fields.key, fields.value, Further(fields.rest, []));
    var key, value, further := Literal(fields.key), Shown(fields.value), Further(fields.rest, []);
    Assoc(value, further, rest);
    Assoc([COLON], value + further, rest);
    Assoc(key, [COLON] + (value + further), rest);
    hide Literal;
    hide Further;
  }

  lemma {:induction false} ValueRest(key: Text, value: Json, behind: Text)
    ensures Quoted(key, [COLON] + Print(value, behind)) == Literal(key) + ([COLON] + (Shown(value) + behind))
    decreases value, 2
  {
    PrintRest(value, behind);
    QuotedRest(key, [COLON] + Print(value, behind));
  }

  // ---- the document, spelled out -----------------------------------------------------

  function Key(name: string): Text {
    Word("\"" + name + "\":")
  }

  /** One member of an object, and what is behind its value. */
  lemma Member(name: string, value: Json, rest: Fields)
    requires Plain(name)
    ensures PrintFields(Field(Word(name), value, rest), []) == Key(name) + (Shown(value) + Further(rest, []))
  {
    FieldsRest(Field(Word(name), value, rest), []);
    QuotedName(name, []);
    assert Literal(Word(name)) + [COLON] == Key(name);
    Assoc(Literal(Word(name)), [COLON], Shown(value) + Further(rest, []));
  }

  lemma Signs()
    ensures Word("{") == [0x7B] && Word("}") == [0x7D] + [] && Word(",") == [COMMA]
    ensures Word("[") == [0x5B] && Word("]") == [0x5D] + [] && Word("[]") == [0x5B, 0x5D] + []
  {
  }

  lemma MemberAndMore(name: string, value: Json, rest: Fields)
    requires Plain(name) && rest.Field?
    ensures PrintFields(Field(Word(name), value, rest), [])
            == Key(name) + (Shown(value) + (Word(",") + PrintFields(rest, [])))
  {
    Signs();
    Member(name, value, rest);
  }

  lemma LastMember(name: string, value: Json)
    requires Plain(name)
    ensures PrintFields(Field(Word(name), value, NoFields), []) == Key(name) + (Shown(value) + Word("}"))
  {
    Signs();
    Member(name, value, NoFields);
  }

  lemma Object(fields: Fields)
    requires fields.Field?
    ensures Shown(Obj(fields)) == Word("{") + PrintFields(fields, [])
  {
    Signs();
  }

  function FileText(f: File): Text {
    Word("{") + (Key("path") + (Literal(f.path) + (Word(",") + (Key("sha256") + (Literal(f.sha256) + Word("}"))))))
  }

  function FilesFrom(files: seq<File>): Text
    requires files != []
  {
    FileText(files[0]) + if |files| == 1 then Word("]") else Word(",") + FilesFrom(files[1..])
  }

  function FilesText(files: seq<File>): Text {
    if files == [] then Word("[]") else Word("[") + FilesFrom(files)
  }

  function PackageText(p: Package): Text {
    Word("{") + (Key("name") + (Literal(p.name) + (Word(",") + (Key("sha256") + (Literal(p.sha256)
      + (Word(",") + (Key("version") + (Literal(p.version) + Word("}")))))))))
  }

  function EnvironmentText(e: Environment): Text {
    match e
    case Developer => Word("\"developer\"")
    case Pinned(workspace, tools) =>
      Word("{") + (Key("tools") + (PackageText(tools) + (Word(",") + (Key("workspace") + (PackageText(workspace)
        + Word("}"))))))
  }

  function OneMember(name: string, value: Text): Text {
    Word("{") + (Key(name) + (Literal(value) + Word("}")))
  }

  /** {"build_environment":...,"files":[...],"sdk":{"sha256":"..."},"target":{"board":"..."}} */
  function DocumentText(c: Context): Text {
    Word("{") + (Key("build_environment") + (EnvironmentText(c.environment)
      + (Word(",") + (Key("files") + (FilesText(ContextId.Sorted(c.files))
      + (Word(",") + (Key("sdk") + (OneMember("sha256", c.sdk)
      + (Word(",") + (Key("target") + (OneMember("board", c.board) + Word("}"))))))))))))
  }

  lemma FileSpelled(f: File)
    ensures Shown(FileJson(f)) == FileText(f)
  {
    Signs();
    var last := Field(Word("sha256"), Str(f.sha256), NoFields);
    Member("path", Str(f.path), last);
    Member("sha256", Str(f.sha256), NoFields);
    hide Key;
  }

  lemma PackageSpelled(p: Package)
    ensures Shown(Identity(p)) == PackageText(p)
  {
    Signs();
    var last := Field(Word("version"), Str(p.version), NoFields);
    var mid := Field(Word("sha256"), Str(p.sha256), last);
    Member("name", Str(p.name), mid);
    Member("sha256", Str(p.sha256), last);
    Member("version", Str(p.version), NoFields);
    hide Key;
  }

  lemma {:induction false} FilesSpelled(files: seq<File>)
    requires files != []
    ensures PrintItems(FilesJson(files), []) == FilesFrom(files)
  {
    Signs();
    FileSpelled(files[0]);
    ItemsRest(FilesJson(files), []);
    hide FileText;
    hide Shown;
    if |files| > 1 {
      FilesSpelled(files[1..]);
    }
  }

  lemma FilesArraySpelled(files: seq<File>)
    ensures Shown(Arr(FilesJson(files))) == FilesText(files)
  {
    Signs();
    if files != [] {
      FilesSpelled(files);
    }
  }

  lemma DeveloperSpelled()
    ensures Shown(Str(Word("developer"))) == Word("\"developer\"")
  {
    QuotedName("developer", []);
    assert Word("\"developer\"") + [] == Word("\"developer\"");
  }

  lemma TwoMembers(tools: Json, workspace: Json)
    ensures Shown(Obj(Field(Word("tools"), tools, Field(Word("workspace"), workspace, NoFields))))
            == Word("{") + (Key("tools") + (Shown(tools) + (Word(",") + (Key("workspace") + (Shown(workspace)
               + Word("}"))))))
  {
    hide Key;
    hide Word;
    var last := Field(Word("workspace"), workspace, NoFields);
    Object(Field(Word("tools"), tools, last));
    MemberAndMore("tools", tools, last);
    LastMember("workspace", workspace);
    hide Shown;
  }

  lemma EnvironmentSpelled(e: Environment)
    ensures Shown(EnvironmentJson(e)) == EnvironmentText(e)
  {
    hide Shown;
    hide PackageText;
    hide Identity;
    hide Key;
    hide Word;
    if e.Pinned? {
      PackageSpelled(e.tools);
      PackageSpelled(e.workspace);
      TwoMembers(Identity(e.tools), Identity(e.workspace));
    } else {
      DeveloperSpelled();
    }
  }

  lemma SmallObject(name: string, value: Text)
    requires Plain(name)
    ensures Shown(Obj(Field(Word(name), Str(value), NoFields))) == OneMember(name, value)
  {
    Signs();
    Member(name, Str(value), NoFields);
    hide Key;
  }

  lemma TopNames()
    ensures Plain("build_environment") && Plain("files") && Plain("sdk") && Plain("target")
  {
  }

  lemma FourMembers(env: Json, files: Json, sdk: Json, target: Json)
    ensures Shown(Obj(Field(Word("build_environment"), env, Field(Word("files"), files,
                      Field(Word("sdk"), sdk, Field(Word("target"), target, NoFields))))))
            == Word("{") + (Key("build_environment") + (Shown(env)
               + (Word(",") + (Key("files") + (Shown(files)
               + (Word(",") + (Key("sdk") + (Shown(sdk)
               + (Word(",") + (Key("target") + (Shown(target) + Word("}"))))))))))))
  {
    TopNames();
    hide Plain;
    hide Key;
    hide Word;
    hide Shown;
    hide PrintFields;
    var four := Field(Word("target"), target, NoFields);
    var three := Field(Word("sdk"), sdk, four);
    var two := Field(Word("files"), files, three);
    Object(Field(Word("build_environment"), env, two));
    MemberAndMore("build_environment", env, two);
    MemberAndMore("files", files, three);
    MemberAndMore("sdk", sdk, four);
    LastMember("target", target);
  }

  lemma CanonicalIsShown(c: Context)
    ensures Canonical(Document(c)) == Shown(Document(c))
  {
    DocumentIsNormal(c);
    hide Document;
    hide Normal;
  }

  /** The hashed text, word by word: for every context the ID is the hash of this. */
  lemma DocumentSpelled(c: Context)
    ensures Canonical(Document(c)) == DocumentText(c)
  {
    CanonicalIsShown(c);
    hide Canonical;
    hide Shown;
    hide Word;
    hide Key;
    hide EnvironmentJson;
    hide EnvironmentText;
    hide FilesText;
    hide FilesJson;
    hide ContextId.Sorted;
    hide OneMember;
    var files := Arr(FilesJson(ContextId.Sorted(c.files)));
    var sdk := Obj(Field(Word("sha256"), Str(c.sdk), NoFields));
    var target := Obj(Field(Word("board"), Str(c.board), NoFields));
    EnvironmentSpelled(c.environment);
    FilesArraySpelled(ContextId.Sorted(c.files));
    SmallObject("sha256", c.sdk);
    SmallObject("board", c.board);
    FourMembers(EnvironmentJson(c.environment), files, sdk, target);
  }
}
