/** str.split, str.partition and str.rpartition on one-character separators. */
module Strings {

  /** str.isspace, for str.strip. */
  predicate IsBlank(c: int) {
    || 0x09 <= c <= 0x0D || 0x1C <= c <= 0x20 || c == 0x85 || c == 0xA0 || c == 0x1680
    || 0x2000 <= c <= 0x200A || c == 0x2028 || c == 0x2029 || c == 0x202F || c == 0x205F || c == 0x3000
  }

  /** The pieces, one behind the other. */
  function Glued<T>(pieces: seq<seq<T>>): seq<T> {
    if pieces == [] then [] else pieces[0] + Glued(pieces[1..])
  }

  /** The first place of `c`, or the length. */
  function IndexOf<T(==)>(s: seq<T>, c: T): (i: nat)
    ensures i <= |s| && (i < |s| ==> s[i] == c) && forall k :: 0 <= k < i ==> s[k] != c
  {
    if s == [] || s[0] == c then 0 else 1 + IndexOf(s[1..], c)
  }

  /** The place behind the last `c`, or zero. */
  function BehindLast<T(==)>(s: seq<T>, c: T): (i: nat)
    ensures i <= |s| && (i > 0 ==> s[i - 1] == c) && forall k :: i <= k < |s| ==> s[k] != c
  {
    if s == [] then 0 else if s[|s| - 1] == c then |s| else BehindLast(s[..|s| - 1], c)
  }

  function Split<T(==)>(s: seq<T>, c: T): (parts: seq<seq<T>>)
    ensures parts != [] && forall i :: 0 <= i < |parts| ==> c !in parts[i]
  {
    var i := IndexOf(s, c);
    if i == |s| then [s] else [s[..i]] + Split(s[i + 1..], c)
  }

  function Join<T>(parts: seq<seq<T>>, c: T): seq<T>
    requires parts != []
  {
    if |parts| == 1 then parts[0] else parts[0] + [c] + Join(parts[1..], c)
  }

  lemma FirstIs<T>(p: seq<T>, c: T, rest: seq<T>)
    requires c !in p
    ensures IndexOf(p + [c] + rest, c) == |p| && IndexOf(p, c) == |p|
  {
    hide IndexOf;
    var s := p + [c] + rest;
    assert s[|p|] == c;
    assert forall k :: 0 <= k < |p| ==> s[k] == p[k] && p[k] in p;
  }

  lemma LastIs<T>(front: seq<T>, c: T, p: seq<T>)
    requires c !in p
    ensures BehindLast(front + [c] + p, c) == |front| + 1 && BehindLast(p, c) == 0
  {
    hide BehindLast;
    var s := front + [c] + p;
    assert s[|front|] == c;
    assert s[|front| + 1..] == p;
  }

  /** A part in front is split off as it is. */
  lemma SplitFirst<T>(p: seq<T>, c: T, rest: seq<T>)
    requires c !in p
    ensures Split(p + [c] + rest, c) == [p] + Split(rest, c) && Split(p, c) == [p]
  {
    FirstIs(p, c, rest);
    hide IndexOf;
    var s := p + [c] + rest;
    assert s[..|p|] == p && s[|p| + 1..] == rest;
  }

  /** A text is its part before the first separator, and what is behind it. */
  lemma FirstPart<T>(s: seq<T>, c: T) returns (p: seq<T>, rest: seq<T>)
    requires c in s
    ensures c !in p && s == p + [c] + rest && |rest| < |s|
  {
    var i := IndexOf(s, c);
    hide IndexOf;
    p, rest := s[..i], s[i + 1..];
    assert i < |s|;
    assert s == s[..i] + [s[i]] + s[i + 1..];
  }

  lemma {:induction false} JoinSplit<T>(s: seq<T>, c: T)
    ensures Join(Split(s, c), c) == s
    decreases |s|
  {
    if c in s {
      var p, rest := FirstPart(s, c);
      SplitFirst(p, c, rest);
      JoinSplit(rest, c);
      hide Split;
      assert ([p] + Split(rest, c))[1..] == Split(rest, c);
    } else {
      SplitFirst(s, c, []);
    }
  }

  lemma {:induction false} SplitJoin<T>(parts: seq<seq<T>>, c: T)
    requires parts != [] && forall i :: 0 <= i < |parts| ==> c !in parts[i]
    ensures Split(Join(parts, c), c) == parts
    decreases |parts|
  {
    hide Split;
    if |parts| == 1 {
      SplitFirst(parts[0], c, []);
    } else {
      SplitFirst(parts[0], c, Join(parts[1..], c));
      SplitJoin(parts[1..], c);
      assert parts == [parts[0]] + parts[1..];
    }
  }

  lemma {:induction false} SplitAppend<T>(a: seq<T>, b: seq<T>, c: T)
    ensures Split(a + [c] + b, c) == Split(a, c) + Split(b, c)
    decreases |a|
  {
    hide Split;
    if c in a {
      var p, rest := FirstPart(a, c);
      SplitFirst(p, c, rest);
      SplitFirst(p, c, rest + [c] + b);
      SplitAppend(rest, b, c);
      assert a + [c] + b == p + [c] + (rest + [c] + b);
      assert [p] + (Split(rest, c) + Split(b, c)) == ([p] + Split(rest, c)) + Split(b, c);
    } else {
      SplitFirst(a, c, b);
    }
  }
}
