/** The runs in which two builds differ (scripts/compare_firmware.py). */
module FirmwareCompare {
  import opened Wrappers

  const JOIN_GAP: nat := 8

  // ---- runs of difference --------------------------------------------------

  datatype Run = Run(offset: nat, length: nat)
  {
    function End(): int { offset + length }
  }

  function Min(a: nat, b: nat): nat {
    if a < b then a else b
  }

  predicate Differs(left: seq<Byte>, right: seq<Byte>, i: int) {
    0 <= i < Min(|left|, |right|) && left[i] != right[i]
  }

  predicate Inside(run: Run, i: int) {
    run.offset <= i < run.End()
  }

  predicate Covered(runs: seq<Run>, i: int) {
    exists k :: 0 <= k < |runs| && Inside(runs[k], i)
  }

  /** The next difference after `i` is at most JOIN_GAP away. */
  predicate Near(left: seq<Byte>, right: seq<Byte>, i: int) {
    exists j :: i < j <= i + JOIN_GAP && Differs(left, right, j)
  }

  /** A run starts and ends at a difference and is joined all the way. */
  ghost predicate IsRun(left: seq<Byte>, right: seq<Byte>, run: Run) {
    && run.length > 0
    && Differs(left, right, run.offset)
    && Differs(left, right, run.End() - 1)
    && forall i :: Inside(run, i) && i != run.End() - 1 ==> Near(left, right, i)
  }

  /** `later` starts more than JOIN_GAP after the last byte of `earlier`. */
  predicate Apart(earlier: Run, later: Run) {
    earlier.End() - 1 + JOIN_GAP < later.offset
  }

  ghost predicate CoversAll(left: seq<Byte>, right: seq<Byte>, runs: seq<Run>, upto: int) {
    forall i :: Differs(left, right, i) && i < upto ==> Covered(runs, i)
  }

  ghost predicate AllRuns(left: seq<Byte>, right: seq<Byte>, runs: seq<Run>, upto: int) {
    forall k :: 0 <= k < |runs| ==> IsRun(left, right, runs[k]) && runs[k].End() <= upto
  }

  predicate Ascending(runs: seq<Run>) {
    forall k, m :: 0 <= k < m < |runs| ==> Apart(runs[k], runs[m])
  }

  /** The grouping of the differences below `upto`: every one is in a run, the
      differences in one run are at most JOIN_GAP apart, those of two runs are
      further apart, and the runs ascend. */
  ghost predicate Grouping(left: seq<Byte>, right: seq<Byte>, runs: seq<Run>, upto: int) {
    CoversAll(left, right, runs, upto) && AllRuns(left, right, runs, upto) && Ascending(runs)
  }

  method RunsOfDifference(left: seq<Byte>, right: seq<Byte>) returns (found: seq<Run>)
    ensures Grouping(left, right, found, Min(|left|, |right|))
  {
    hide IsRun;
    hide Grouping;
    found := [];
    var start: Option<nat>, last := None, 0;
    NothingYet(left, right);
    for index := 0 to Min(|left|, |right|)
      invariant start.None? ==> found == [] && Grouping(left, right, [], index)
      invariant start.Some? ==> start.value <= last < index
      invariant start.Some? ==> Grouping(left, right, found + [Run(start.value, last - start.value + 1)], index)
    {
      if left[index] != right[index] {
        if start.None? {
          start := Some(index);
          OpenRun(left, right, [], index);
        } else if index - last > JOIN_GAP {
          found := found + [Run(start.value, last - start.value + 1)];
          start := Some(index);
          OpenRun(left, right, found, index);
        } else {
          GrowRun(left, right, found, Run(start.value, last - start.value + 1), index);
        }
        last := index;
      } else if start.None? {
        NoDifference(left, right, [], index);
      } else {
        NoDifference(left, right, found + [Run(start.value, last - start.value + 1)], index);
      }
    }
    if start.Some? {
      found := found + [Run(start.value, last - start.value + 1)];
    }
  }

  lemma NothingYet(left: seq<Byte>, right: seq<Byte>)
    ensures Grouping(left, right, [], 0)
  {
  }

  lemma NoDifference(left: seq<Byte>, right: seq<Byte>, runs: seq<Run>, index: nat)
    requires !Differs(left, right, index) && Grouping(left, right, runs, index)
    ensures Grouping(left, right, runs, index + 1)
  {
    hide IsRun;
    hide Covered;
  }

  /** A difference far from everything so far starts a run of its own. */
  lemma OpenRun(left: seq<Byte>, right: seq<Byte>, runs: seq<Run>, index: nat)
    requires Differs(left, right, index) && Grouping(left, right, runs, index)
    requires runs != [] ==> Apart(runs[|runs| - 1], Run(index, 1))
    ensures Grouping(left, right, runs + [Run(index, 1)], index + 1)
  {
    hide Near;
    var run := Run(index, 1);
    assert IsRun(left, right, run);
    hide IsRun;
    hide Covered;
    hide CoversAll;
    hide Ascending;
    CoverOneMore(left, right, runs, runs + [run], index);
    Append(left, right, runs, run, index);
  }

  /** Every run of `before` is still there, no shorter. */
  predicate Widens(before: seq<Run>, after: seq<Run>) {
    && |before| <= |after|
    && forall k :: 0 <= k < |before| ==> before[k].offset == after[k].offset && before[k].length <= after[k].length
  }

  lemma CoverOneMore(left: seq<Byte>, right: seq<Byte>, before: seq<Run>, after: seq<Run>, index: nat)
    requires CoversAll(left, right, before, index) && Widens(before, after)
    requires |after| > 0 && Inside(after[|after| - 1], index)
    ensures CoversAll(left, right, after, index + 1)
  {
    forall i | Differs(left, right, i) && i < index + 1
      ensures Covered(after, i)
    {
      if i < index {
        var k :| 0 <= k < |before| && Inside(before[k], i);
        assert Inside(after[k], i);
      }
    }
  }

  lemma Append(left: seq<Byte>, right: seq<Byte>, runs: seq<Run>, run: Run, index: nat)
    requires AllRuns(left, right, runs, index) && Ascending(runs) && run.offset == index
    requires runs != [] ==> Apart(runs[|runs| - 1], run)
    ensures Ascending(runs + [run])
  {
    hide IsRun;
    forall k | 0 <= k < |runs|
      ensures Apart(runs[k], run)
    {
      var n := |runs| - 1;
      assert k < n ==> Apart(runs[k], runs[n]) && runs[n].End() <= index;
      assert k < n ==> IsRun(left, right, runs[n]);
      RunIsNotEmpty(left, right, runs[n]);
    }
  }

  lemma RunIsNotEmpty(left: seq<Byte>, right: seq<Byte>, run: Run)
    requires IsRun(left, right, run)
    ensures run.length > 0
  {
  }

  /** A difference near the open run's last one is joined to it. */
  lemma GrowRun(left: seq<Byte>, right: seq<Byte>, closed: seq<Run>, open: Run, index: nat)
    requires Differs(left, right, index) && Grouping(left, right, closed + [open], index)
    requires open.End() <= index <= open.End() - 1 + JOIN_GAP
    ensures Grouping(left, right, closed + [Run(open.offset, index - open.offset + 1)], index + 1)
  {
    var grown := Run(open.offset, index - open.offset + 1);
    var before, after := closed + [open], closed + [grown];
    hide AllRuns;
    hide Ascending;
    assert before[..|closed|] == closed == after[..|closed|];
    hide IsRun;
    hide CoversAll;
    hide AllRuns;
    hide Ascending;
    Regrown(left, right, before, after, open, grown, index);
    CoverOneMore(left, right, before, after, index);
  }

  lemma Regrown(left: seq<Byte>, right: seq<Byte>, before: seq<Run>, after: seq<Run>, open: Run, grown: Run, index: nat)
    requires Grouping(left, right, before, index) && Differs(left, right, index)
    requires |before| == |after| > 0 && before[..|before| - 1] == after[..|before| - 1]
    requires before[|before| - 1] == open && after[|before| - 1] == grown
    requires open.End() <= index <= open.End() - 1 + JOIN_GAP && grown == Run(open.offset, index - open.offset + 1)
    ensures AllRuns(left, right, after, index + 1) && Ascending(after)
    ensures Widens(before, after) && Inside(after[|after| - 1], index)
  {
    hide Grouping;
    hide IsRun;
    var n := |before| - 1;
    assert forall k :: 0 <= k < n ==> before[k] == before[..n][k] == after[..n][k] == after[k];
    RunAt(left, right, before, index, n);
    Grown(left, right, open, index);
    forall k | 0 <= k < n
      ensures IsRun(left, right, after[k]) && after[k].End() <= index + 1 && Apart(after[k], after[n])
    {
      RunAt(left, right, before, index, k);
      InOrder(left, right, before, index, k, n);
    }
    forall k, m | 0 <= k < m < n
      ensures Apart(after[k], after[m])
    {
      InOrder(left, right, before, index, k, m);
    }
  }

  lemma Grown(left: seq<Byte>, right: seq<Byte>, open: Run, index: nat)
    requires IsRun(left, right, open) && Differs(left, right, index)
    requires open.End() <= index <= open.End() - 1 + JOIN_GAP
    ensures IsRun(left, right, Run(open.offset, index - open.offset + 1))
  {
    var grown := Run(open.offset, index - open.offset + 1);
    forall i | Inside(grown, i) && i != grown.End() - 1
      ensures Near(left, right, i)
    {
      if Inside(open, i) && i != open.End() - 1 {
        assert Near(left, right, i);
      } else {
        assert Differs(left, right, index);
      }
    }
  }

  /** There is one grouping only: the answer is determined. */
  lemma {:induction false} GroupingUnique(left: seq<Byte>, right: seq<Byte>, a: seq<Run>, b: seq<Run>, upto: int,
                                          n: nat)
    requires n <= |a| && n <= |b| && a[..n] == b[..n]
    requires Grouping(left, right, a, upto) && Grouping(left, right, b, upto)
    ensures a == b
    decreases |a| - n
  {
    hide Grouping;
    if n == |a| {
      NoMore(left, right, a, b, upto);
    } else if n == |b| {
      NoMore(left, right, b, a, upto);
    } else {
      SameStart(left, right, a, b, upto, n);
      SameStart(left, right, b, a, upto, n);
      SameEnd(left, right, a, b, upto, n);
      SameEnd(left, right, b, a, upto, n);
      assert a[..n + 1] == a[..n] + [a[n]] && b[..n + 1] == b[..n] + [b[n]];
      GroupingUnique(left, right, a, b, upto, n + 1);
    }
  }

  lemma NoMore(left: seq<Byte>, right: seq<Byte>, short: seq<Run>, long: seq<Run>, upto: int)
    requires Grouping(left, right, short, upto) && Grouping(left, right, long, upto)
    requires |short| <= |long| && short == long[..|short|]
    ensures short == long
  {
    hide Grouping;
    var n := |short|;
    if n < |long| {
      var k := Holder(left, right, short, upto, long, n);
      InOrder(left, right, long, upto, k, n);
    }
  }

  /** The first difference of one grouping's run lies in a run of the other. */
  lemma Holder(left: seq<Byte>, right: seq<Byte>, runs: seq<Run>, upto: int, other: seq<Run>, n: nat) returns (k: nat)
    requires Grouping(left, right, runs, upto) && Grouping(left, right, other, upto) && n < |other|
    ensures k < |runs| && Inside(runs[k], other[n].offset)
  {
    hide Grouping;
    RunAt(left, right, other, upto, n);
    k := RunOf(left, right, runs, upto, other[n].offset);
  }

  lemma RunAt(left: seq<Byte>, right: seq<Byte>, runs: seq<Run>, upto: int, k: nat)
    requires Grouping(left, right, runs, upto) && k < |runs|
    ensures IsRun(left, right, runs[k]) && runs[k].length > 0 && runs[k].End() <= upto
    ensures Differs(left, right, runs[k].offset)
  {
    hide CoversAll;
    hide Near;
  }

  lemma RunOf(left: seq<Byte>, right: seq<Byte>, runs: seq<Run>, upto: int, i: int) returns (k: nat)
    requires Grouping(left, right, runs, upto) && Differs(left, right, i) && i < upto
    ensures k < |runs| && Inside(runs[k], i)
  {
    hide AllRuns;
    assert Covered(runs, i);
    k :| 0 <= k < |runs| && Inside(runs[k], i);
  }

  /** What a run holds lies before every later run. */
  lemma InOrder(left: seq<Byte>, right: seq<Byte>, runs: seq<Run>, upto: int, k: nat, m: nat)
    requires Grouping(left, right, runs, upto) && k < m < |runs|
    ensures Apart(runs[k], runs[m]) && runs[k].offset < runs[m].offset
  {
    hide AllRuns;
    hide CoversAll;
    RunAt(left, right, runs, upto, k);
  }

  lemma SameStart(left: seq<Byte>, right: seq<Byte>, a: seq<Run>, b: seq<Run>, upto: int, n: nat)
    requires n < |a| && n < |b| && a[..n] == b[..n]
    requires Grouping(left, right, a, upto) && Grouping(left, right, b, upto)
    ensures b[n].offset <= a[n].offset
  {
    hide Grouping;
    var k := Holder(left, right, b, upto, a, n);
    if k < n {
      assert a[k] == a[..n][k] == b[..n][k];
      InOrder(left, right, a, upto, k, n);
    } else if k > n {
      InOrder(left, right, b, upto, n, k);
    }
  }

  lemma SameEnd(left: seq<Byte>, right: seq<Byte>, a: seq<Run>, b: seq<Run>, upto: int, n: nat)
    requires n < |a| && n < |b| && a[n].offset == b[n].offset
    requires Grouping(left, right, a, upto) && Grouping(left, right, b, upto)
    ensures a[n].End() <= b[n].End()
  {
    hide Grouping;
    hide IsRun;
    RunAt(left, right, a, upto, n);
    RunAt(left, right, b, upto, n);
    if a[n].End() > b[n].End() {
      var last := b[n].End() - 1;
      var j := NextDifference(left, right, a[n], last);
      var k := RunOf(left, right, b, upto, j);
      if k < n {
        InOrder(left, right, b, upto, k, n);
      } else if k > n {
        InOrder(left, right, b, upto, n, k);
      }
    }
  }

  /** Inside a run the next difference is near, and in the run. */
  lemma NextDifference(left: seq<Byte>, right: seq<Byte>, run: Run, i: int) returns (j: int)
    requires IsRun(left, right, run) && Inside(run, i) && i != run.End() - 1
    ensures i < j <= i + JOIN_GAP && j < run.End() && Differs(left, right, j)
  {
    assert Near(left, right, i);
    j :| i < j <= i + JOIN_GAP && Differs(left, right, j);
    if j >= run.End() {
      j := run.End() - 1;
    }
  }

  // ---- what the report counts ----------------------------------------------

  function TotalLength(runs: seq<Run>): nat {
    if runs == [] then 0 else TotalLength(runs[..|runs| - 1]) + runs[|runs| - 1].length
  }

  /** Differing bytes in [from, upto). */
  function DifferingIn(left: seq<Byte>, right: seq<Byte>, from: int, upto: int): nat
    decreases upto - from
  {
    if from >= upto then 0
    else DifferingIn(left, right, from, upto - 1) + if Differs(left, right, upto - 1) then 1 else 0
  }

  lemma {:induction false} DifferingSplit(left: seq<Byte>, right: seq<Byte>, from: int, mid: int, upto: int)
    requires from <= mid <= upto
    ensures DifferingIn(left, right, from, upto)
        == DifferingIn(left, right, from, mid) + DifferingIn(left, right, mid, upto)
    decreases upto - mid
  {
    if mid < upto {
      DifferingSplit(left, right, from, mid, upto - 1);
    }
  }

  lemma {:induction false} DifferingBounded(left: seq<Byte>, right: seq<Byte>, from: int, upto: int)
    requires from <= upto
    ensures DifferingIn(left, right, from, upto) <= upto - from
    ensures DifferingIn(left, right, from, upto) == upto - from <==>
              forall i :: from <= i < upto ==> Differs(left, right, i)
    decreases upto - from
  {
    if from < upto {
      DifferingBounded(left, right, from, upto - 1);
    }
  }

  lemma {:induction false} DifferingNone(left: seq<Byte>, right: seq<Byte>, from: int, upto: int)
    requires from <= upto && forall i :: from <= i < upto ==> !Differs(left, right, i)
    ensures DifferingIn(left, right, from, upto) == 0
    decreases upto - from
  {
    if from < upto {
      DifferingNone(left, right, from, upto - 1);
    }
  }

  predicate Solid(left: seq<Byte>, right: seq<Byte>, runs: seq<Run>) {
    forall k :: 0 <= k < |runs| ==> forall i :: runs[k].offset <= i < runs[k].End() ==> Differs(left, right, i)
  }

  /** The number the report prints bounds the differing bytes from above, and is
      exact exactly when no run joins over a matching byte. */
  lemma {:induction false} ReportedCount(left: seq<Byte>, right: seq<Byte>, runs: seq<Run>, upto: nat)
    requires Grouping(left, right, runs, upto)
    ensures DifferingIn(left, right, 0, upto) <= TotalLength(runs)
    ensures DifferingIn(left, right, 0, upto) == TotalLength(runs) <==> Solid(left, right, runs)
    decreases |runs|
  {
    hide Grouping;
    if runs == [] {
      OutsideAll(left, right, runs, upto);
      DifferingNone(left, right, 0, upto);
    } else {
      var n := |runs| - 1;
      var run, rest := runs[n], runs[..n];
      DropLast(left, right, runs, upto);
      RunAt(left, right, runs, upto, n);
      ReportedCount(left, right, rest, run.offset);
      DifferingSplit(left, right, 0, run.offset, upto);
      DifferingSplit(left, right, run.offset, run.End(), upto);
      DifferingNone(left, right, run.End(), upto);
      DifferingBounded(left, right, run.offset, run.End());
      assert runs == rest + [run];
    }
  }

  lemma OutsideAll(left: seq<Byte>, right: seq<Byte>, runs: seq<Run>, upto: int)
    requires runs == [] && Grouping(left, right, runs, upto)
    ensures forall i :: 0 <= i < upto ==> !Differs(left, right, i)
  {
  }

  /** Without its last run a grouping is the grouping of what lies before it. */
  lemma DropLast(left: seq<Byte>, right: seq<Byte>, runs: seq<Run>, upto: int)
    requires runs != [] && Grouping(left, right, runs, upto)
    ensures var run := runs[|runs| - 1];
            && Grouping(left, right, runs[..|runs| - 1], run.offset)
            && forall i :: run.End() <= i < upto ==> !Differs(left, right, i)
  {
    hide Grouping;
    var n := |runs| - 1;
    var run, rest := runs[n], runs[..n];
    RunAt(left, right, runs, upto, n);
    forall i | Differs(left, right, i) && i < upto
      ensures i < run.offset ==> Covered(rest, i)
      ensures i < run.End()
    {
      var k := RunOf(left, right, runs, upto, i);
      if k < n {
        InOrder(left, right, runs, upto, k, n);
        assert Inside(rest[k], i);
      }
    }
    forall k | 0 <= k < n
      ensures IsRun(left, right, rest[k]) && rest[k].End() <= run.offset
    {
      RunAt(left, right, runs, upto, k);
      InOrder(left, right, runs, upto, k, n);
    }
    forall k, m | 0 <= k < m < n
      ensures Apart(rest[k], rest[m])
    {
      InOrder(left, right, runs, upto, k, m);
    }
    Assemble(left, right, rest, run.offset);
  }

  lemma Assemble(left: seq<Byte>, right: seq<Byte>, runs: seq<Run>, upto: int)
    requires CoversAll(left, right, runs, upto) && AllRuns(left, right, runs, upto) && Ascending(runs)
    ensures Grouping(left, right, runs, upto)
  {
    hide CoversAll;
    hide AllRuns;
    hide Ascending;
  }
}
