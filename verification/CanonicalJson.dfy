/** Canonical JSON for the value domain of a context document: strings, arrays
    and objects (mcuhome/model/context.py, canonical_json; RFC 8785 sections
    3.2.2.2 and 3.2.3). */
module CanonicalJson {
  import opened Wrappers
  import opened Utf8

  datatype Json = Str(text: Text) | Arr(items: Items) | Obj(fields: Fields)
  datatype Items = NoItems | Item(head: Json, tail: Items)
  datatype Fields = NoFields | Field(key: Text, value: Json, rest: Fields)

  const QUOTE: CodePoint := 0x22
  const COMMA: CodePoint := 0x2C
  const COLON: CodePoint := 0x3A

  // ---- printing, in front of what follows ------------------------------------

  function HexDigit(n: int): CodePoint
    requires 0 <= n < 16
  {
    if n < 10 then 0x30 + n else 0x61 + n - 10
  }

  /** The two-character escapes, lowercase \u00xx for the other controls, and
      everything else literally. */
  function EscapeOne(c: CodePoint): Text {
    if c == 0x22 || c == 0x5C then [0x5C, c]
    else if c == 0x08 then [0x5C, 0x62]
    else if c == 0x0C then [0x5C, 0x66]
    else if c == 0x0A then [0x5C, 0x6E]
    else if c == 0x0D then [0x5C, 0x72]
    else if c == 0x09 then [0x5C, 0x74]
    else if c < 0x20 then [0x5C, 0x75, 0x30, 0x30, HexDigit(c / 16), HexDigit(c % 16)]
    else [c]
  }

  function Escaped(s: Text, rest: Text): Text {
    if s == [] then rest else EscapeOne(s[0]) + Escaped(s[1..], rest)
  }

  function Quoted(s: Text, rest: Text): Text {
    [QUOTE] + Escaped(s, [QUOTE] + rest)
  }

  function Print(j: Json, rest: Text): Text
    decreases j, 1
  {
    match j
    case Str(text) => Quoted(text, rest)
    case Arr(NoItems) => [0x5B, 0x5D] + rest
    case Arr(items) => [0x5B] + PrintItems(items, rest)
    case Obj(NoFields) => [0x7B, 0x7D] + rest
    case Obj(fields) => [0x7B] + PrintFields(fields, rest)
  }

  function PrintItems(items: Items, rest: Text): Text
    requires items.Item?
    decreases items, 0
  {
    Print(items.head, if items.tail.NoItems? then [0x5D] + rest else [COMMA] + PrintItems(items.tail, rest))
  }

  function PrintFields(fields: Fields, rest: Text): Text
    requires fields.Field?
    decreases fields, 0
  {
    Quoted(fields.key, [COLON] + Print(fields.value,
      if fields.rest.NoFields? then [0x7D] + rest else [COMMA] + PrintFields(fields.rest, rest)))
  }

  // ---- sort_keys ---------------------------------------------------------------

  function Insert(key: Text, value: Json, fields: Fields): Fields {
    match fields
    case NoFields => Field(key, value, NoFields)
    case Field(k, v, rest) => if Less(k, key) then Field(k, v, Insert(key, value, rest)) else Field(key, value, fields)
  }

  function Normal(j: Json): Json {
    match j
    case Str(_) => j
    case Arr(items) => Arr(NormalItems(items))
    case Obj(fields) => Obj(NormalFields(fields))
  }

  function NormalItems(items: Items): Items {
    match items
    case NoItems => NoItems
    case Item(head, tail) => Item(Normal(head), NormalItems(tail))
  }

  function NormalFields(fields: Fields): Fields {
    match fields
    case NoFields => NoFields
    case Field(key, value, rest) => Insert(key, Normal(value), NormalFields(rest))
  }

  function Canonical(j: Json): Text {
    Print(Normal(j), [])
  }

  // ---- what a printed string means ---------------------------------------------

  function HexValue(c: CodePoint): Option<int> {
    if 0x30 <= c <= 0x39 then Some(c - 0x30)
    else if 0x61 <= c <= 0x66 then Some(c - 0x61 + 10)
    else if 0x41 <= c <= 0x46 then Some(c - 0x41 + 10)
    else None
  }

  /** Four hexadecimal digits. */
  function HexValues(s: Text): (n: Option<CodePoint>)
    requires |s| == 4
  {
    var a, b, c, d := HexValue(s[0]), HexValue(s[1]), HexValue(s[2]), HexValue(s[3]);
    if a.None? || b.None? || c.None? || d.None? then None
    else
      var n := a.value * 4096 + b.value * 256 + c.value * 16 + d.value;
      if 0 <= n < 0x110000 then Some(n) else None
  }

  /** One character of a JSON string as section 7 of RFC 8259 reads it, and how
      much of the text it took; a bare control or a quote is none. */
  function ReadOne(s: Text): Option<(CodePoint, nat)> {
    if s == [] || s[0] < 0x20 || s[0] == 0x22 then None
    else if s[0] != 0x5C then Some((s[0], 1))
    else if |s| < 2 then None
    else match s[1]
      case 0x22 => Some((0x22, 2))
      case 0x5C => Some((0x5C, 2))
      case 0x2F => Some((0x2F, 2))
      case 0x62 => Some((0x08, 2))
      case 0x66 => Some((0x0C, 2))
      case 0x6E => Some((0x0A, 2))
      case 0x72 => Some((0x0D, 2))
      case 0x74 => Some((0x09, 2))
      case 0x75 =>
        if |s| < 6 then None
        else
          var n := HexValues(s[2..6]);
          if n.None? then None else Some((n.value, 6))
      case _ => None
  }

  /** Every JSON reader takes an escape for the character it stands for. */
  lemma ReadEscaped(c: CodePoint, rest: Text)
    ensures ReadOne(EscapeOne(c) + rest) == Some((c, |EscapeOne(c)|))
  {
    var e := EscapeOne(c);
    assert forall i :: 0 <= i < |e| ==> (e + rest)[i] == e[i];
    if c < 0x20 {
      HexReads(c / 16);
      HexReads(c % 16);
    }
  }

  lemma HexReads(n: int)
    requires 0 <= n < 16
    ensures HexValue(HexDigit(n)) == Some(n)
  {
  }

  // ---- unique decodability -------------------------------------------------------

  lemma EscapeUnique(c: CodePoint, x: Text, d: CodePoint, y: Text)
    requires EscapeOne(c) + x == EscapeOne(d) + y
    ensures c == d && x == y
  {
    var e, f := EscapeOne(c), EscapeOne(d);
    var s, t := e + x, f + y;
    assert s[0] == t[0];
    if c >= 0x20 && c != 0x22 && c != 0x5C {
      assert c == d;
    } else {
      assert s[1] == t[1];
      if s[1] == 0x75 {
        assert s[4] == t[4] && s[5] == t[5];
        SameHex(c, d);
      }
    }
    assert x == s[|e|..] && y == t[|f|..];
  }

  lemma SameHex(c: CodePoint, d: CodePoint)
    requires c < 0x20 && d < 0x20 && HexDigit(c / 16) == HexDigit(d / 16) && HexDigit(c % 16) == HexDigit(d % 16)
    ensures c == d
  {
  }

  lemma NoQuote(s: Text, rest: Text)
    requires s != []
    ensures Escaped(s, rest) != [] && Escaped(s, rest)[0] != QUOTE
  {
    assert Escaped(s, rest)[0] == EscapeOne(s[0])[0];
  }

  /** A closing quote is no escape: a string's end is seen. */
  lemma {:induction false} EscapedUnique(s: Text, x: Text, t: Text, y: Text)
    requires Escaped(s, [QUOTE] + x) == Escaped(t, [QUOTE] + y)
    ensures s == t && x == y
  {
    if s == [] && t == [] {
      assert x == ([QUOTE] + x)[1..] && y == ([QUOTE] + y)[1..];
    } else if s == [] || t == [] {
      NoQuote(if s == [] then t else s, [QUOTE] + if s == [] then y else x);
    } else {
      EscapeUnique(s[0], Escaped(s[1..], [QUOTE] + x), t[0], Escaped(t[1..], [QUOTE] + y));
      EscapedUnique(s[1..], x, t[1..], y);
      assert s == [s[0]] + s[1..] && t == [t[0]] + t[1..];
    }
  }

  lemma QuotedUnique(s: Text, x: Text, t: Text, y: Text)
    requires Quoted(s, x) == Quoted(t, y)
    ensures s == t && x == y
  {
    Behind(QUOTE, Escaped(s, [QUOTE] + x), QUOTE, Escaped(t, [QUOTE] + y));
    EscapedUnique(s, x, t, y);
  }

  lemma Behind(c: CodePoint, x: Text, d: CodePoint, y: Text)
    requires [c] + x == [d] + y
    ensures c == d && x == y
  {
    assert ([c] + x)[0] == c && ([d] + y)[0] == d;
    assert x == ([c] + x)[1..] && y == ([d] + y)[1..];
  }

  function Opening(j: Json): CodePoint {
    match j case Str(_) => 0x22 case Arr(_) => 0x5B case Obj(_) => 0x7B
  }

  lemma StartsWith(j: Json, rest: Text)
    ensures Print(j, rest) != [] && Print(j, rest)[0] == Opening(j)
  {
  }

  /** A printed value shows where it ends and what it was, whatever follows. */
  lemma {:induction false} PrintUnique(a: Json, x: Text, b: Json, y: Text)
    requires Print(a, x) == Print(b, y)
    ensures a == b && x == y
    decreases a, 1
  {
    StartsWith(a, x);
    StartsWith(b, y);
    match a
    case Str(s) => QuotedUnique(s, x, b.text, y);
    case Arr(items) => ArrUnique(items, x, b.items, y);
    case Obj(fields) => ObjUnique(fields, x, b.fields, y);
  }

  lemma {:induction false} ArrUnique(a: Items, x: Text, b: Items, y: Text)
    requires Print(Arr(a), x) == Print(Arr(b), y)
    ensures a == b && x == y
    decreases a, 2
  {
    if a.Item? && b.Item? {
      Behind(0x5B, PrintItems(a, x), 0x5B, PrintItems(b, y));
      ItemsUnique(a, x, b, y);
    } else if a.NoItems? && b.NoItems? {
      assert x == ([0x5B, 0x5D] + x)[2..] && y == ([0x5B, 0x5D] + y)[2..];
    } else {
      var (items, rest) := if a.Item? then (a, x) else (b, y);
      StartsWith(items.head, if items.tail.NoItems? then [0x5D] + rest else [COMMA] + PrintItems(items.tail, rest));
      assert ([0x5B] + PrintItems(items, rest))[1] == Opening(items.head);
    }
  }

  lemma {:induction false} ItemsUnique(a: Items, x: Text, b: Items, y: Text)
    requires a.Item? && b.Item? && PrintItems(a, x) == PrintItems(b, y)
    ensures a == b && x == y
    decreases a, 0
  {
    var u := if a.tail.NoItems? then [0x5D] + x else [COMMA] + PrintItems(a.tail, x);
    var v := if b.tail.NoItems? then [0x5D] + y else [COMMA] + PrintItems(b.tail, y);
    PrintUnique(a.head, u, b.head, v);
    Behind(u[0], u[1..], v[0], v[1..]);
    if a.tail.Item? {
      ItemsUnique(a.tail, x, b.tail, y);
    }
  }

  lemma {:induction false} ObjUnique(a: Fields, x: Text, b: Fields, y: Text)
    requires Print(Obj(a), x) == Print(Obj(b), y)
    ensures a == b && x == y
    decreases a, 2
  {
    if a.Field? && b.Field? {
      Behind(0x7B, PrintFields(a, x), 0x7B, PrintFields(b, y));
      FieldsUnique(a, x, b, y);
    } else if a.NoFields? && b.NoFields? {
      assert x == ([0x7B, 0x7D] + x)[2..] && y == ([0x7B, 0x7D] + y)[2..];
    } else {
      OpensKey(if a.Field? then a else b, if a.Field? then x else y);
    }
  }

  lemma OpensKey(fields: Fields, rest: Text)
    requires fields.Field?
    ensures |Print(Obj(fields), rest)| > 1 && Print(Obj(fields), rest)[1] == QUOTE
  {
    assert PrintFields(fields, rest)[0] == QUOTE;
  }

  lemma {:induction false} FieldsUnique(a: Fields, x: Text, b: Fields, y: Text)
    requires a.Field? && b.Field? && PrintFields(a, x) == PrintFields(b, y)
    ensures a == b && x == y
    decreases a, 0
  {
    var u := if a.rest.NoFields? then [0x7D] + x else [COMMA] + PrintFields(a.rest, x);
    var v := if b.rest.NoFields? then [0x7D] + y else [COMMA] + PrintFields(b.rest, y);
    QuotedUnique(a.key, [COLON] + Print(a.value, u), b.key, [COLON] + Print(b.value, v));
    Behind(COLON, Print(a.value, u), COLON, Print(b.value, v));
    PrintUnique(a.value, u, b.value, v);
    Behind(u[0], u[1..], v[0], v[1..]);
    if a.rest.Field? {
      FieldsUnique(a.rest, x, b.rest, y);
    }
  }

  /** Equal canonical strings are equal documents, up to the order a dict was
      filled in. */
  lemma CanonicalUnique(a: Json, b: Json)
    ensures Canonical(a) == Canonical(b) <==> Normal(a) == Normal(b)
  {
    if Canonical(a) == Canonical(b) {
      PrintUnique(Normal(a), [], Normal(b), []);
    }
  }

  // ---- the order of the keys -----------------------------------------------------

  predicate Sorted(fields: Fields) {
    fields.Field? && fields.rest.Field? ==> Less(fields.key, fields.rest.key) && Sorted(fields.rest)
  }

  predicate Has(fields: Fields, key: Text) {
    fields.Field? && (fields.key == key || Has(fields.rest, key))
  }

  predicate Distinct(fields: Fields) {
    fields.Field? ==> !Has(fields.rest, fields.key) && Distinct(fields.rest)
  }

  lemma {:induction false} InsertSorts(key: Text, value: Json, fields: Fields)
    requires Sorted(fields) && !Has(fields, key)
    ensures Sorted(Insert(key, value, fields))
    ensures forall k :: Has(Insert(key, value, fields), k) <==> k == key || Has(fields, k)
  {
    if fields.Field? {
      Trichotomy(fields.key, key);
      if Less(fields.key, key) {
        InsertSorts(key, value, fields.rest);
      }
    }
  }

  /** Sorted and with the same keys, whatever the dict's own order. */
  lemma {:induction false} NormalSorts(fields: Fields)
    requires Distinct(fields)
    ensures Sorted(NormalFields(fields)) && forall k :: Has(NormalFields(fields), k) <==> Has(fields, k)
  {
    if fields.Field? {
      NormalSorts(fields.rest);
      InsertSorts(fields.key, Normal(fields.value), NormalFields(fields.rest));
    }
  }

  // ---- a dict is what its keys hold ------------------------------------------------

  function Lookup(fields: Fields, key: Text): Option<Json> {
    if fields.NoFields? then None
    else if fields.key == key then Some(fields.value)
    else Lookup(fields.rest, key)
  }

  /** What a dict holds at a key, itself in normal form. */
  function NormalAt(fields: Fields, key: Text): Option<Json> {
    var found := Lookup(fields, key);
    if found.None? then None else Some(Normal(found.value))
  }

  lemma {:induction false} InsertLookup(key: Text, value: Json, fields: Fields, k: Text)
    requires Lookup(fields, key).None?
    ensures Lookup(Insert(key, value, fields), k) == if k == key then Some(value) else Lookup(fields, k)
  {
    if fields.Field? {
      InsertLookup(key, value, fields.rest, k);
    }
  }

  lemma {:induction false} HasLookup(fields: Fields, key: Text)
    ensures Has(fields, key) <==> Lookup(fields, key).Some?
  {
    if fields.Field? {
      HasLookup(fields.rest, key);
    }
  }

  lemma {:induction false} NormalLookup(fields: Fields, k: Text)
    requires Distinct(fields)
    ensures Lookup(NormalFields(fields), k) == NormalAt(fields, k)
  {
    if fields.Field? {
      NormalLookup(fields.rest, k);
      NormalLookup(fields.rest, fields.key);
      HasLookup(fields.rest, fields.key);
      InsertLookup(fields.key, Normal(fields.value), NormalFields(fields.rest), k);
    }
  }

  lemma {:induction false} SortedBelow(fields: Fields, key: Text)
    requires fields.Field? && Sorted(fields) && Less(key, fields.key)
    ensures Lookup(fields, key).None?
  {
    Trichotomy(key, fields.key);
    if fields.rest.Field? {
      LessTransitive(key, fields.key, fields.rest.key);
      SortedBelow(fields.rest, key);
    }
  }

  lemma HoldsFirst(fields: Fields)
    ensures fields.Field? ==> Lookup(fields, fields.key) == Some(fields.value)
  {
  }

  lemma {:induction false} SortedUnique(a: Fields, b: Fields)
    requires Sorted(a) && Sorted(b) && forall k :: Lookup(a, k) == Lookup(b, k)
    ensures a == b
  {
    HoldsFirst(a);
    HoldsFirst(b);
    if a.Field? && b.Field? {
      Trichotomy(a.key, b.key);
      if Less(a.key, b.key) {
        SortedBelow(b, a.key);
      } else if Less(b.key, a.key) {
        SortedBelow(a, b.key);
      }
      assert a.key == b.key && Lookup(a, a.key) == Lookup(b, b.key);
      if a.rest.Field? {
        SortedBelow(a.rest, a.key);
      }
      if b.rest.Field? {
        SortedBelow(b.rest, b.key);
      }
      forall k
        ensures Lookup(a.rest, k) == Lookup(b.rest, k)
      {
        assert Lookup(a, k) == Lookup(b, k);
      }
      SortedUnique(a.rest, b.rest);
    }
  }

  /** Two dicts have one canonical string if and only if they hold the same at
      every key, in whatever order they were filled. */
  lemma FillingOrderIsIrrelevant(a: Fields, b: Fields)
    requires Distinct(a) && Distinct(b)
    ensures Canonical(Obj(a)) == Canonical(Obj(b)) <==> forall k :: NormalAt(a, k) == NormalAt(b, k)
  {
    CanonicalUnique(Obj(a), Obj(b));
    NormalSorts(a);
    NormalSorts(b);
    forall k
      ensures Lookup(NormalFields(a), k) == NormalAt(a, k) && Lookup(NormalFields(b), k) == NormalAt(b, k)
    {
      NormalLookup(a, k);
      NormalLookup(b, k);
    }
    if forall k :: NormalAt(a, k) == NormalAt(b, k) {
      SortedUnique(NormalFields(a), NormalFields(b));
    }
  }
}
