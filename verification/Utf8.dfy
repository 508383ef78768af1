/** UTF-8 as RFC 3629 section 3 defines it, over the code points of a Python
    string, and the ordering claim of its section 1. */
module Utf8 {
  import opened Wrappers
  import opened Strings

  type CodePoint = c: int | 0 <= c < 0x110000
  type Text = seq<CodePoint>

  /** A Unicode scalar value; a lone surrogate is none and has no encoding. */
  predicate Scalar(c: CodePoint) {
    !(0xD800 <= c < 0xE000)
  }

  predicate Scalars(s: Text) {
    forall i :: 0 <= i < |s| ==> Scalar(s[i])
  }

  function EncodeOne(c: CodePoint): (bytes: seq<Byte>) {
    if c < 0x80 then [c]
    else if c < 0x800 then [0xC0 + c / 64, 0x80 + c % 64]
    else if c < 0x10000 then [0xE0 + c / 64 / 64, 0x80 + c / 64 % 64, 0x80 + c % 64]
    else [0xF0 + c / 64 / 64 / 64, 0x80 + c / 64 / 64 % 64, 0x80 + c / 64 % 64, 0x80 + c % 64]
  }

  function EncodeAll(s: Text): seq<Byte> {
    if s == [] then [] else EncodeOne(s[0]) + EncodeAll(s[1..])
  }

  /** str.encode("utf-8"): a lone surrogate is a UnicodeEncodeError. */
  function Encode(s: Text): Option<seq<Byte>> {
    if Scalars(s) then Some(EncodeAll(s)) else None
  }

  /** A continuation byte. */
  predicate Continues(b: Byte) {
    0x80 <= b < 0xC0
  }

  /** What a byte carries above `base`. */
  function Bits(b: Byte, base: int): int {
    b - base
  }

  /** The code point at the front of `bytes` and its length, by the leading byte's
      own ranges: overlong forms and stray continuation bytes are none. */
  function DecodeOne(bytes: seq<Byte>): Option<(int, nat)> {
    if bytes == [] then None
    else
      var b := bytes[0];
      if b < 0x80 then Some((b as int, 1))
      else if 0xC2 <= b < 0xE0 && |bytes| > 1 && Continues(bytes[1]) then
        Some((Bits(b, 0xC0) * 64 + Bits(bytes[1], 0x80), 2))
      else if 0xE0 <= b < 0xF0 && |bytes| > 2 && Continues(bytes[1]) && Continues(bytes[2])
        && (b == 0xE0 ==> bytes[1] >= 0xA0) then
        Some(((Bits(b, 0xE0) * 64 + Bits(bytes[1], 0x80)) * 64 + Bits(bytes[2], 0x80), 3))
      else if 0xF0 <= b < 0xF5 && |bytes| > 3 && Continues(bytes[1]) && Continues(bytes[2]) && Continues(bytes[3])
              && (b == 0xF0 ==> bytes[1] >= 0x90) then
        Some((((Bits(b, 0xF0) * 64 + Bits(bytes[1], 0x80)) * 64 + Bits(bytes[2], 0x80)) * 64 + Bits(bytes[3], 0x80), 4))
      else None
  }

  /** What is encoded is read back, whatever follows. */
  lemma DecodeEncoded(c: CodePoint, rest: seq<Byte>)
    ensures DecodeOne(EncodeOne(c) + rest) == Some((c as int, |EncodeOne(c)|))
  {
    var bytes := EncodeOne(c);
    assert forall i :: 0 <= i < |bytes| ==> (bytes + rest)[i] == bytes[i];
    var x, y := c / 64, c / 64 / 64;
    assert c == x * 64 + c % 64 && x == y * 64 + x % 64 && y == y / 64 * 64 + y % 64;
    if c >= 0x10000 {
      FourDigits(c);
    } else if c >= 0x800 {
      assert y < 16 && (y == 0 ==> x >= 0x20);
    }
  }

  predicate Within(b: Byte, first: int, last: int) {
    first <= b <= last
  }

  predicate IsTail(b: Byte) {
    Within(b, 0x80, 0xBF)
  }

  /** One character by the syntax of section 4 of RFC 3629. */
  predicate IsUtf8Char(bytes: seq<Byte>) {
    match |bytes|
    case 1 => Within(bytes[0], 0x00, 0x7F)
    case 2 => Within(bytes[0], 0xC2, 0xDF) && IsTail(bytes[1])
    case 3 =>
      && IsTail(bytes[2])
      && (|| (bytes[0] == 0xE0 && Within(bytes[1], 0xA0, 0xBF))
          || (Within(bytes[0], 0xE1, 0xEC) && IsTail(bytes[1]))
          || (bytes[0] == 0xED && Within(bytes[1], 0x80, 0x9F))
          || (Within(bytes[0], 0xEE, 0xEF) && IsTail(bytes[1])))
    case 4 =>
      && IsTail(bytes[2]) && IsTail(bytes[3])
      && (|| (bytes[0] == 0xF0 && Within(bytes[1], 0x90, 0xBF))
          || (Within(bytes[0], 0xF1, 0xF3) && IsTail(bytes[1]))
          || (bytes[0] == 0xF4 && Within(bytes[1], 0x80, 0x8F)))
    case _ => false
  }

  lemma LastDigit(x: int, d: int)
    requires 0 <= d < 64
    ensures (x * 64 + d) / 64 == x && (x * 64 + d) % 64 == d
  {
  }

  lemma TwoLong(bytes: seq<Byte>)
    requires |bytes| == 2 && IsUtf8Char(bytes)
    ensures DecodeOne(bytes).Some? && DecodeOne(bytes).value.1 == 2
    ensures var c := DecodeOne(bytes).value.0; 0x80 <= c < 0x800 && EncodeOne(c) == bytes
  {
    LastDigit(Bits(bytes[0], 0xC0), Bits(bytes[1], 0x80));
  }

  lemma ThreeLong(bytes: seq<Byte>)
    requires |bytes| == 3 && IsUtf8Char(bytes)
    ensures DecodeOne(bytes).Some? && DecodeOne(bytes).value.1 == 3
    ensures var c := DecodeOne(bytes).value.0; 0x800 <= c < 0x10000 && Scalar(c) && EncodeOne(c) == bytes
  {
    var x := Bits(bytes[0], 0xE0) * 64 + Bits(bytes[1], 0x80);
    LastDigit(Bits(bytes[0], 0xE0), Bits(bytes[1], 0x80));
    LastDigit(x, Bits(bytes[2], 0x80));
  }

  lemma FourLong(bytes: seq<Byte>)
    requires |bytes| == 4 && IsUtf8Char(bytes)
    ensures DecodeOne(bytes).Some? && DecodeOne(bytes).value.1 == 4
    ensures var c := DecodeOne(bytes).value.0; 0x10000 <= c < 0x110000 && EncodeOne(c) == bytes
  {
    var x := Bits(bytes[0], 0xF0) * 64 + Bits(bytes[1], 0x80);
    LastDigit(Bits(bytes[0], 0xF0), Bits(bytes[1], 0x80));
    LastDigit(x, Bits(bytes[2], 0x80));
    LastDigit(x * 64 + Bits(bytes[2], 0x80), Bits(bytes[3], 0x80));
  }

  lemma DigitsOf(bytes: seq<Byte>)
    requires IsUtf8Char(bytes)
    ensures DecodeOne(bytes).Some? && DecodeOne(bytes).value.1 == |bytes|
    ensures var c := DecodeOne(bytes).value.0; 0 <= c < 0x110000 && Scalar(c) && EncodeOne(c) == bytes
  {
    if |bytes| == 2 {
      TwoLong(bytes);
    } else if |bytes| == 3 {
      ThreeLong(bytes);
    } else if |bytes| == 4 {
      FourLong(bytes);
    }
  }

  lemma EncodedIsChar(c: CodePoint)
    ensures IsUtf8Char(EncodeOne(c)) <==> Scalar(c)
  {
    var x, y := c / 64, c / 64 / 64;
    assert c == x * 64 + c % 64 && x == y * 64 + x % 64 && y == y / 64 * 64 + y % 64;
    if c >= 0x10000 {
      FourDigits(c);
    } else if c >= 0x800 {
      assert y < 16 && (y == 0 ==> x >= 0x20);
    }
  }

  predicate IsCharOf(c: CodePoint, piece: seq<Byte>) {
    IsUtf8Char(piece) && DecodeOne(piece) == Some((c as int, |piece|))
  }

  /** Code points that have an encoding, and byte sequences that are one character,
      are one to one: no surrogate has one, and no other byte sequence is one. */
  lemma EncodedExactly(c: CodePoint, bytes: seq<Byte>)
    ensures Scalar(c) && bytes == EncodeOne(c) <==> IsCharOf(c, bytes)
  {
    EncodedIsChar(c);
    DecodeEncoded(c, []);
    assert EncodeOne(c) + [] == EncodeOne(c);
    if IsUtf8Char(bytes) {
      DigitsOf(bytes);
    }
    hide IsUtf8Char;
    hide DecodeOne;
    hide EncodeOne;
  }

  /** The bytes are the text's characters, each spelled by the syntax, in order. */
  ghost predicate Spells(bytes: seq<Byte>, s: Text) {
    exists pieces: seq<seq<Byte>> ::
      |pieces| == |s| && Glued(pieces) == bytes
      && forall k :: 0 <= k < |s| ==> IsCharOf(s[k], pieces[k])
  }

  lemma {:induction false} EncodedPieces(s: Text) returns (pieces: seq<seq<Byte>>)
    requires Scalars(s)
    ensures |pieces| == |s| && Glued(pieces) == EncodeAll(s)
    ensures forall k :: 0 <= k < |s| ==> IsCharOf(s[k], pieces[k])
  {
    pieces := [];
    if s != [] {
      var rest := EncodedPieces(s[1..]);
      EncodedExactly(s[0], EncodeOne(s[0]));
      hide IsUtf8Char;
      hide DecodeOne;
      hide EncodeOne;
      pieces := [EncodeOne(s[0])] + rest;
      assert pieces[1..] == rest;
    }
  }

  lemma {:induction false} PiecesEncode(s: Text, pieces: seq<seq<Byte>>)
    requires |pieces| == |s|
    requires forall k :: 0 <= k < |s| ==> IsCharOf(s[k], pieces[k])
    ensures Scalars(s) && Glued(pieces) == EncodeAll(s)
  {
    if s != [] {
      EncodedExactly(s[0], pieces[0]);
      hide IsUtf8Char;
      hide DecodeOne;
      hide EncodeOne;
      PiecesEncode(s[1..], pieces[1..]);
      assert forall k :: 1 <= k < |s| ==> s[k] == s[1..][k - 1];
    }
  }

  /** A text is encoded exactly as the bytes that spell it, and as nothing exactly where
      none do. */
  lemma EncodesExactly(s: Text, bytes: seq<Byte>)
    ensures Encode(s) == Some(bytes) <==> Spells(bytes, s)
  {
    hide IsUtf8Char;
    hide DecodeOne;
    hide EncodeOne;
    if Scalars(s) {
      var pieces := EncodedPieces(s);
      assert Spells(EncodeAll(s), s);
    }
    if Spells(bytes, s) {
      var pieces: seq<seq<Byte>> :|
        |pieces| == |s| && Glued(pieces) == bytes
        && forall k :: 0 <= k < |s| ==> IsCharOf(s[k], pieces[k]);
      PiecesEncode(s, pieces);
    }
  }

  lemma FourDigits(c: CodePoint)
    requires c >= 0x10000
    ensures var y := c / 64 / 64; 16 <= y < 0x110 && y / 64 < 5 && (y / 64 == 0 ==> y % 64 >= 0x10)
  {
  }

  /** Lexicographic order, a proper prefix first: Python's order of strings and
      of byte strings. */
  predicate Less(a: seq<int>, b: seq<int>) {
    b != [] && (a == [] || a[0] < b[0] || (a[0] == b[0] && Less(a[1..], b[1..])))
  }

  lemma {:induction false} Trichotomy(a: seq<int>, b: seq<int>)
    ensures Less(a, b) || a == b || Less(b, a)
    ensures !(Less(a, b) && Less(b, a)) && !Less(a, a)
  {
    if a != [] {
      Trichotomy(a[1..], a[1..]);
      if b != [] && a[0] == b[0] {
        Trichotomy(a[1..], b[1..]);
        assert a == [a[0]] + a[1..] && b == [b[0]] + b[1..];
      }
    }
  }

  lemma {:induction false} LessTransitive(a: seq<int>, b: seq<int>, c: seq<int>)
    requires Less(a, b) && Less(b, c)
    ensures Less(a, c)
  {
    if a != [] && a[0] == b[0] == c[0] {
      LessTransitive(a[1..], b[1..], c[1..]);
    }
  }

  /** The encodings of two code points part at a byte both have, in their order. */
  predicate PartAt(a: seq<Byte>, b: seq<Byte>, k: nat) {
    k < |a| && k < |b| && a[..k] == b[..k] && a[k] < b[k]
  }

  /** One six-bit digit: equal so far, the next one keeps the order and decides it. */
  lemma Digit(x: int, y: int)
    requires x <= y && x / 64 == y / 64
    ensures x % 64 <= y % 64 && (x < y ==> x % 64 < y % 64)
  {
    assert x == x / 64 * 64 + x % 64 && y == y / 64 * 64 + y % 64;
  }

  lemma Quotient(x: int, y: int)
    requires x <= y
    ensures x / 64 <= y / 64
  {
  }

  lemma EncodingsPart(c: CodePoint, d: CodePoint) returns (k: nat)
    requires c < d
    ensures PartAt(EncodeOne(c), EncodeOne(d), k)
  {
    Quotient(c, d);
    Quotient(c / 64, d / 64);
    Quotient(c / 64 / 64, d / 64 / 64);
    if |EncodeOne(c)| < |EncodeOne(d)| {
      k := LeadingByte(c, d);
    } else if |EncodeOne(c)| == 1 {
      k := 0;
    } else if |EncodeOne(c)| == 2 {
      k := TwoBytes(c, d);
    } else if |EncodeOne(c)| == 3 {
      k := ThreeBytes(c, d);
    } else {
      k := FourBytes(c, d);
    }
  }

  lemma LeadingByte(c: CodePoint, d: CodePoint) returns (k: nat)
    requires c < d && |EncodeOne(c)| < |EncodeOne(d)|
    ensures PartAt(EncodeOne(c), EncodeOne(d), k)
  {
    k := 0;
  }

  lemma TwoBytes(c: CodePoint, d: CodePoint) returns (k: nat)
    requires 0x80 <= c < d < 0x800 && c / 64 <= d / 64
    ensures PartAt(EncodeOne(c), EncodeOne(d), k)
  {
    k := 0;
    if c / 64 == d / 64 {
      Digit(c, d);
      k := 1;
    }
  }

  lemma ThreeBytes(c: CodePoint, d: CodePoint) returns (k: nat)
    requires 0x800 <= c < d < 0x10000 && c / 64 <= d / 64 && c / 64 / 64 <= d / 64 / 64
    ensures PartAt(EncodeOne(c), EncodeOne(d), k)
  {
    k := 0;
    if c / 64 / 64 == d / 64 / 64 {
      Digit(c / 64, d / 64);
      k := 1;
      if c / 64 == d / 64 {
        Digit(c, d);
        k := 2;
      }
    }
  }

  lemma FourBytes(c: CodePoint, d: CodePoint) returns (k: nat)
    requires 0x10000 <= c < d && c / 64 <= d / 64 && c / 64 / 64 <= d / 64 / 64 && c / 64 / 64 / 64 <= d / 64 / 64 / 64
    ensures PartAt(EncodeOne(c), EncodeOne(d), k)
  {
    k := 0;
    if c / 64 / 64 / 64 == d / 64 / 64 / 64 {
      Digit(c / 64 / 64, d / 64 / 64);
      k := 1;
      if c / 64 / 64 == d / 64 / 64 {
        Digit(c / 64, d / 64);
        k := 2;
        if c / 64 == d / 64 {
          Digit(c, d);
          k := 3;
        }
      }
    }
  }

  lemma {:induction false} PartedIsLess(a: seq<Byte>, b: seq<Byte>, k: nat, x: seq<Byte>, y: seq<Byte>)
    requires PartAt(a, b, k)
    ensures Less(a + x, b + y)
    decreases k
  {
    if k > 0 {
      assert a[0] == a[..k][0] == b[..k][0] == b[0];
      assert a[1..][..k - 1] == a[..k][1..] == b[..k][1..] == b[1..][..k - 1];
      PartedIsLess(a[1..], b[1..], k - 1, x, y);
      assert (a + x)[1..] == a[1..] + x && (b + y)[1..] == b[1..] + y;
    }
  }

  lemma {:induction false} CommonPrefix(p: seq<int>, x: seq<int>, y: seq<int>)
    ensures Less(p + x, p + y) == Less(x, y)
  {
    if p == [] {
      assert p + x == x && p + y == y;
    } else {
      CommonPrefix(p[1..], x, y);
      assert (p + x)[1..] == p[1..] + x && (p + y)[1..] == p[1..] + y;
    }
  }

  lemma {:induction false} SmallerIsLess(s: Text, t: Text)
    requires Less(s, t)
    ensures Less(EncodeAll(s), EncodeAll(t))
  {
    if s == [] {
      assert EncodeAll(t) == EncodeOne(t[0]) + EncodeAll(t[1..]);
    } else if s[0] < t[0] {
      var k := EncodingsPart(s[0], t[0]);
      PartedIsLess(EncodeOne(s[0]), EncodeOne(t[0]), k, EncodeAll(s[1..]), EncodeAll(t[1..]));
    } else {
      SmallerIsLess(s[1..], t[1..]);
      CommonPrefix(EncodeOne(s[0]), EncodeAll(s[1..]), EncodeAll(t[1..]));
    }
  }

  /** Sorting by code point is sorting by the bytes of the encoding. */
  lemma OrderIsByteOrder(s: Text, t: Text)
    ensures Less(s, t) <==> Less(EncodeAll(s), EncodeAll(t))
  {
    Trichotomy(s, t);
    Trichotomy(EncodeAll(s), EncodeAll(t));
    if Less(s, t) {
      SmallerIsLess(s, t);
    } else if Less(t, s) {
      SmallerIsLess(t, s);
    }
  }

  /** Two texts with one encoding are one text. */
  lemma EncodeInjective(s: Text, t: Text)
    requires Encode(s).Some? && Encode(s) == Encode(t)
    ensures s == t
  {
    Trichotomy(s, t);
    OrderIsByteOrder(s, t);
    OrderIsByteOrder(t, s);
    Trichotomy(EncodeAll(s), EncodeAll(t));
  }
}
