/** Regular expressions by their meaning: which texts `re.fullmatch` accepts. */
module Patterns {
  import opened Wrappers
  import opened Strings

  datatype Pattern<T> =
    | One(chars: set<T>)
    | Then(first: Pattern<T>, second: Pattern<T>)
    | Either(left: Pattern<T>, right: Pattern<T>)
    | Repeat(body: Pattern<T>, least: nat, most: Option<nat>)

  predicate Times(n: nat, least: nat, most: Option<nat>) {
    least <= n && (most.Some? ==> n <= most.value)
  }

  ghost predicate Matches<T(!new)>(p: Pattern<T>, s: seq<T>)
    decreases p
  {
    match p
    case One(chars) => |s| == 1 && s[0] in chars
    case Then(first, second) => exists i :: 0 <= i <= |s| && Matches(first, s[..i]) && Matches(second, s[i..])
    case Either(left, right) => Matches(left, s) || Matches(right, s)
    case Repeat(body, least, most) =>
      exists pieces: seq<seq<T>> ::
        Glued(pieces) == s && Times(|pieces|, least, most)
        && forall k :: 0 <= k < |pieces| ==> Matches(body, pieces[k])
  }

  predicate AllIn<T(==)>(s: seq<T>, chars: set<T>) {
    forall i :: 0 <= i < |s| ==> s[i] in chars
  }

  lemma ThenSplits<T(!new)>(first: Pattern<T>, second: Pattern<T>, s: seq<T>) returns (i: nat)
    requires Matches(Then(first, second), s)
    ensures i <= |s| && Matches(first, s[..i]) && Matches(second, s[i..])
  {
    i :| 0 <= i <= |s| && Matches(first, s[..i]) && Matches(second, s[i..]);
  }

  lemma ThenJoins<T(!new)>(first: Pattern<T>, second: Pattern<T>, s: seq<T>, i: nat)
    requires i <= |s| && Matches(first, s[..i]) && Matches(second, s[i..])
    ensures Matches(Then(first, second), s)
  {
  }

  lemma RepeatSplits<T(!new)>(body: Pattern<T>, least: nat, most: Option<nat>, s: seq<T>)
    returns (pieces: seq<seq<T>>)
    requires Matches(Repeat(body, least, most), s)
    ensures Glued(pieces) == s && Times(|pieces|, least, most)
    ensures forall k :: 0 <= k < |pieces| ==> Matches(body, pieces[k])
  {
    pieces :| Glued(pieces) == s && Times(|pieces|, least, most)
              && forall k :: 0 <= k < |pieces| ==> Matches(body, pieces[k]);
  }

  lemma RepeatJoins<T(!new)>(body: Pattern<T>, least: nat, most: Option<nat>, pieces: seq<seq<T>>)
    requires Times(|pieces|, least, most) && forall k :: 0 <= k < |pieces| ==> Matches(body, pieces[k])
    ensures Matches(Repeat(body, least, most), Glued(pieces))
  {
  }

  // ---- classes of characters -----------------------------------------------------

  predicate Between(first: char, c: char, last: char) {
    first <= c <= last
  }

  function Span(first: char, last: char): set<char> {
    set c | Between(first, c, last)
  }

  // ---- one class, over and over ---------------------------------------------------

  lemma {:induction false} SinglesGlued<T>(pieces: seq<seq<T>>, chars: set<T>)
    requires forall k :: 0 <= k < |pieces| ==> |pieces[k]| == 1 && pieces[k][0] in chars
    ensures |Glued(pieces)| == |pieces| && AllIn(Glued(pieces), chars)
  {
    if pieces != [] {
      SinglesGlued(pieces[1..], chars);
    }
  }

  lemma {:induction false} Singles<T>(s: seq<T>, chars: set<T>) returns (pieces: seq<seq<T>>)
    requires AllIn(s, chars)
    ensures Glued(pieces) == s && |pieces| == |s|
    ensures forall k :: 0 <= k < |pieces| ==> |pieces[k]| == 1 && pieces[k][0] in chars
  {
    pieces := [];
    if s != [] {
      var rest := Singles(s[1..], chars);
      pieces := [[s[0]]] + rest;
      assert pieces[1..] == rest && s == [s[0]] + s[1..];
    }
  }

  /** A class repeated is a run of its characters, as long as allowed. */
  lemma ClassRun<T(!new)>(chars: set<T>, least: nat, most: Option<nat>, s: seq<T>)
    ensures Matches(Repeat(One(chars), least, most), s) <==> Times(|s|, least, most) && AllIn(s, chars)
  {
    if Matches(Repeat(One(chars), least, most), s) {
      var pieces :| Glued(pieces) == s && Times(|pieces|, least, most)
                    && forall k :: 0 <= k < |pieces| ==> Matches(One(chars), pieces[k]);
      SinglesGlued(pieces, chars);
    }
    if Times(|s|, least, most) && AllIn(s, chars) {
      var pieces := Singles(s, chars);
      assert forall k :: 0 <= k < |pieces| ==> Matches(One(chars), pieces[k]);
    }
  }

  /** One character of a class in front of a run of another. */
  lemma HeadRun<T(!new)>(head: set<T>, chars: set<T>, most: Option<nat>, s: seq<T>)
    ensures Matches(Then(One(head), Repeat(One(chars), 0, most)), s)
            <==> s != [] && s[0] in head && Times(|s| - 1, 0, most) && AllIn(s[1..], chars)
  {
    var rest := Repeat(One(chars), 0, most);
    if i :| 0 <= i <= |s| && Matches(One(head), s[..i]) && Matches(rest, s[i..]) {
      ClassRun(chars, 0, most, s[i..]);
      assert i == 1;
    }
    if s != [] && s[0] in head && Times(|s| - 1, 0, most) && AllIn(s[1..], chars) {
      ClassRun(chars, 0, most, s[1..]);
      assert Matches(One(head), s[..1]);
    }
  }

  // ---- words, and what may be left out -------------------------------------------------

  /** A word stands for itself. */
  function Literally<T>(word: seq<T>): Pattern<T>
    requires word != []
  {
    if |word| == 1 then One({word[0]}) else Then(One({word[0]}), Literally(word[1..]))
  }

  lemma {:induction false} LiterallyIs<T(!new)>(word: seq<T>, s: seq<T>)
    requires word != []
    ensures Matches(Literally(word), s) <==> s == word
    decreases |word|
  {
    if |word| == 1 {
      assert Literally(word) == One({word[0]});
    } else {
      var p := Literally(word);
      assert p == Then(One({word[0]}), Literally(word[1..]));
      if i :| 0 <= i <= |s| && Matches(p.first, s[..i]) && Matches(p.second, s[i..]) {
        LiterallyIs(word[1..], s[i..]);
        assert i == 1 && s == [s[0]] + s[1..];
      }
      if s == word {
        LiterallyIs(word[1..], s[1..]);
        assert Matches(p.first, s[..1]);
      }
    }
  }

  /** A word in front of anything else. */
  lemma WordThen<T(!new)>(word: seq<T>, p: Pattern<T>, s: seq<T>)
    requires word != []
    ensures Matches(Then(Literally(word), p), s)
            <==> |word| <= |s| && s[..|word|] == word && Matches(p, s[|word|..])
  {
    if i :| 0 <= i <= |s| && Matches(Literally(word), s[..i]) && Matches(p, s[i..]) {
      LiterallyIs(word, s[..i]);
    }
    if |word| <= |s| && s[..|word|] == word && Matches(p, s[|word|..]) {
      LiterallyIs(word, s[..|word|]);
    }
  }

  lemma OptionalIs<T(!new)>(p: Pattern<T>, s: seq<T>)
    ensures Matches(Repeat(p, 0, Some(1)), s) <==> s == [] || Matches(p, s)
  {
    if Matches(Repeat(p, 0, Some(1)), s) {
      var pieces :| Glued(pieces) == s && Times(|pieces|, 0, Some(1))
                    && forall k :: 0 <= k < |pieces| ==> Matches(p, pieces[k]);
      if pieces != [] {
        assert Glued(pieces[1..]) == [] && s == pieces[0];
      }
    }
    if s == [] {
      var none: seq<seq<T>> := [];
      assert Glued(none) == s;
    } else if Matches(p, s) {
      assert [s][1..] == [] && Glued([s]) == s + Glued([s][1..]) == s;
      assert forall k :: 0 <= k < |[s]| ==> Matches(p, [s][k]);
    }
  }
}
