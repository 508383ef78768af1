/** The crash breadcrumb (lib/health/breadcrumb_core.h, lib/health/breadcrumb.c)
    and the re-entrancy guard of the fatal handler (lib/health/health.c). */
module Breadcrumb {
  import opened Wrappers

  /** A uint32_t; every wrap-around is written out. */
  type Word = x: int | 0 <= x < 0x1_0000_0000

  const LIVE: Word := 0x42D0FA7A
  const REPORTED: Word := 0x42D05EE2
  const CHECK_SEED: Word := 0x9E3779B9
  /** `body` is state, seq, reason, pc, lr, cfsr, hfsr, bfar, in memory order;
      the ninth word is the check. */
  type Body = b: seq<Word> | |b| == 8 witness [0, 0, 0, 0, 0, 0, 0, 0]

  datatype Record = Record(body: Body, check: Word)
  {
    function State(): Word { body[0] }
    function Seq(): Word { body[1] }
    function Reason(): Word { body[2] }
    function Pc(): Word { body[3] }
    function Lr(): Word { body[4] }
    function Cfsr(): Word { body[5] }
    function Hfsr(): Word { body[6] }
    function Bfar(): Word { body[7] }
  }

  datatype Fault = Fault(reason: Word, pc: Word, lr: Word, cfsr: Word, hfsr: Word, bfar: Word)

  /** What a boot says of the crash before it. */
  datatype Crash = Crash(number: Word, fault: Fault)

  // ---- the integrity word --------------------------------------------------

  function Pow2(n: nat): nat {
    if n == 0 then 1 else 2 * Pow2(n - 1)
  }

  /** Exclusive or of the low `n` bits. */
  function BitXor(a: nat, b: nat, n: nat): (r: nat)
    ensures r < Pow2(n)
  {
    if n == 0 then 0 else (if a % 2 == b % 2 then 0 else 1) + 2 * BitXor(a / 2, b / 2, n - 1)
  }

  function HalfXor(a: nat, b: nat): (r: nat)
    ensures r < 0x1_0000
  {
    assert Pow2(16) == 0x1_0000 by { assert Pow2(8) == 256; }
    BitXor(a, b, 16)
  }

  function Xor(a: Word, b: Word): Word {
    HalfXor(a / 0x1_0000, b / 0x1_0000) * 0x1_0000 + HalfXor(a % 0x1_0000, b % 0x1_0000)
  }

  function Multiply(x: Word): Word {
    (x * 2654435761) % 0x1_0000_0000
  }

  /** x ^ (x >> 16) */
  function Fold(x: Word): Word {
    Xor(x, x / 0x1_0000)
  }

  function Step(check: Word, word: Word): Word {
    Fold(Multiply(Xor(check, word)))
  }

  function Mix(check: Word, words: seq<Word>): Word
    decreases |words|
  {
    if words == [] then check else Mix(Step(check, words[0]), words[1..])
  }

  function CheckOf(body: Body): Word {
    Mix(CHECK_SEED, body)
  }

  predicate Valid(r: Record, state: Word) {
    r.State() == state && r.check == CheckOf(r.body)
  }

  predicate Intact(r: Record) {
    Valid(r, LIVE) || Valid(r, REPORTED)
  }

  lemma {:induction false} BitXorCommutes(a: nat, b: nat, n: nat)
    ensures BitXor(a, b, n) == BitXor(b, a, n)
  {
    if n > 0 {
      BitXorCommutes(a / 2, b / 2, n - 1);
    }
  }

  lemma {:induction false} BitXorCancels(a: nat, b: nat, n: nat)
    requires a < Pow2(n)
    ensures BitXor(BitXor(a, b, n), b, n) == a
  {
    if n > 0 {
      BitXorCancels(a / 2, b / 2, n - 1);
      var x := BitXor(a, b, n);
      assert x / 2 == BitXor(a / 2, b / 2, n - 1);
      assert x % 2 == if a % 2 == b % 2 then 0 else 1;
    }
  }

  lemma {:induction false} BitXorZero(a: nat, n: nat)
    requires a < Pow2(n)
    ensures BitXor(a, 0, n) == a
  {
    if n > 0 {
      BitXorZero(a / 2, n - 1);
    }
  }

  lemma HalfXorCancels(a: nat, b: nat)
    requires a < 0x1_0000
    ensures HalfXor(HalfXor(a, b), b) == a && HalfXor(a, b) == HalfXor(b, a) && HalfXor(a, 0) == a
  {
    assert Pow2(16) == 0x1_0000 by { assert Pow2(8) == 256; }
    BitXorCancels(a, b, 16);
    BitXorCommutes(a, b, 16);
    BitXorZero(a, 16);
  }

  /** Upper and lower half of a word built from both. */
  lemma Halves(upper: nat, lower: nat)
    requires lower < 0x1_0000
    ensures (upper * 0x1_0000 + lower) / 0x1_0000 == upper
    ensures (upper * 0x1_0000 + lower) % 0x1_0000 == lower
  {
  }

  lemma XorCancels(a: Word, b: Word)
    ensures Xor(Xor(a, b), b) == a && Xor(b, Xor(b, a)) == a
  {
    var ah, al, bh, bl := a / 0x1_0000, a % 0x1_0000, b / 0x1_0000, b % 0x1_0000;
    HalfXorCancels(ah, bh);
    HalfXorCancels(al, bl);
    HalfXorCancels(HalfXor(ah, bh), bh);
    HalfXorCancels(HalfXor(al, bl), bl);
    Halves(HalfXor(ah, bh), HalfXor(al, bl));
    assert Xor(b, a) == Xor(a, b);
    assert Xor(b, Xor(a, b)) == Xor(Xor(a, b), b);
  }

  lemma FoldUndone(x: Word)
    ensures Fold(Fold(x)) == x
  {
    var h, l := x / 0x1_0000, x % 0x1_0000;
    HalfXorCancels(h, 0);
    HalfXorCancels(l, h);
    Halves(h, HalfXor(l, h));
    Halves(0, h);
    assert Fold(x) == h * 0x1_0000 + HalfXor(l, h);
  }

  /** The constant is odd, so the multiplication loses nothing: 244002641 undoes
      it, because the product of the two is 1 modulo 2^32. */
  lemma MultiplyInjective(x: Word, y: Word)
    requires Multiply(x) == Multiply(y)
    ensures x == y
  {
    var q, p := x * 2654435761 / 0x1_0000_0000, y * 2654435761 / 0x1_0000_0000;
    assert (x - y) * 2654435761 == (q - p) * 0x1_0000_0000;
    var k := (q - p) * 244002641 - (x - y) * 150801925;
    assert x - y == k * 0x1_0000_0000;
  }

  /** A step is injective in the accumulator and in the word. */
  lemma StepInjective(c: Word, w: Word, c': Word, w': Word)
    requires Step(c, w) == Step(c', w')
    ensures Xor(c, w) == Xor(c', w') && (c == c' <==> w == w')
  {
    XorCancels(c, w);
    XorCancels(c', w');
    XorCancels(w, c);
    XorCancels(w', c');
    FoldUndone(Multiply(Xor(c, w)));
    FoldUndone(Multiply(Xor(c', w')));
    MultiplyInjective(Xor(c, w), Xor(c', w'));
  }

  lemma {:induction false} MixInjective(c: Word, c': Word, words: seq<Word>)
    requires Mix(c, words) == Mix(c', words)
    ensures c == c'
    decreases |words|
  {
    if words != [] {
      var w := words[0];
      MixInjective(Step(c, w), Step(c', w), words[1..]);
      StepInjective(c, w, c', w);
    }
  }

  /** Words that differ in exactly one place never mix to the same check. */
  lemma {:induction false} OneWordShows(c: Word, words: seq<Word>, i: nat, w: Word)
    requires i < |words| && words[i] != w
    ensures Mix(c, words[i := w]) != Mix(c, words)
    decreases |words|
  {
    var other := words[0];
    if i == 0 {
      assert words[0 := w][1..] == words[1..];
      if Mix(c, words[0 := w]) == Mix(c, words) {
        MixInjective(Step(c, w), Step(c, other), words[1..]);
        StepInjective(c, w, c, other);
      }
    } else {
      assert words[i := w][1..] == words[1..][i - 1 := w];
      OneWordShows(Step(c, other), words[1..], i - 1, w);
    }
  }

  /** `r'` differs from `r` in exactly one of the nine words. */
  predicate OneWordApart(r: Record, r': Record) {
    || (r.check == r'.check && exists i :: 0 <= i < 8 && r'.body[i] != r.body[i] && r'.body == r.body[i := r'.body[i]])
    || (r.check != r'.check && r.body == r'.body)
  }

  /** No single stuck or clobbered word keeps the record valid, in either state
      and whatever the word becomes. */
  lemma OneWordInvalidates(r: Record, r': Record)
    requires Intact(r) && OneWordApart(r, r')
    ensures !Intact(r')
  {
    hide Mix;
    if r.check == r'.check {
      var i :| 0 <= i < 8 && r'.body[i] != r.body[i] && r'.body == r.body[i := r'.body[i]];
      OneWordShows(CHECK_SEED, r.body, i, r'.body[i]);
    }
  }

  // ---- fill and mark_reported ----------------------------------------------

  function Increment(x: Word): Word {
    if x == 0xFFFF_FFFF then 0 else x + 1
  }

  function NextSeq(r: Record): Word {
    if Intact(r) then Increment(r.Seq()) else 1
  }

  function FilledBody(r: Record, f: Fault): Body {
    [LIVE, NextSeq(r), f.reason, f.pc, f.lr, f.cfsr, f.hfsr, f.bfar]
  }

  function Filled(r: Record, f: Fault): Record {
    var body := FilledBody(r, f);
    Record(body, CheckOf(body))
  }

  /** The record's six fields are the fault's. */
  predicate Holds(r: Record, f: Fault) {
    && r.Reason() == f.reason && r.Pc() == f.pc && r.Lr() == f.lr
    && r.Cfsr() == f.cfsr && r.Hfsr() == f.hfsr && r.Bfar() == f.bfar
  }

  /** mcuhome_health_breadcrumb_report's lines: the number, then the fields by name. */
  function CrashTold(r: Record): Option<Crash> {
    if Valid(r, LIVE) then
      Some(Crash(r.body[1], Fault(r.body[2], r.body[3], r.body[4], r.body[5], r.body[6], r.body[7])))
    else None
  }

  /** The first of the two stores of `mark_reported`. */
  function Downgraded(r: Record): Record {
    r.(body := r.body[0 := REPORTED])
  }

  function Reported(r: Record): Record {
    var body := Downgraded(r).body;
    Record(body, CheckOf(body))
  }

  /** The record after the first `stores` stores of a fill. */
  function TornFill(r: Record, f: Fault, stores: nat): Record
    requires stores <= 8
  {
    r.(body := FilledBody(r, f)[..stores] + r.body[stores..])
  }

  /** The store that first changes a word. */
  ghost predicate FirstEffective(r: Record, f: Fault, i: nat) {
    && i < 8
    && FilledBody(r, f)[i] != r.body[i]
    && forall j :: 0 <= j < i ==> FilledBody(r, f)[j] == r.body[j]
  }

  /** A fill over an intact record has such a store, and a reset right after it
      leaves no intact record. */
  lemma TornFillInvalid(r: Record, f: Fault)
    requires Intact(r)
    ensures exists i: nat :: FirstEffective(r, f, i) && i <= 1
    ensures forall i: nat :: FirstEffective(r, f, i) ==> !Intact(TornFill(r, f, i + 1))
  {
    hide CheckOf;
    assert FirstEffective(r, f, if r.State() == LIVE then 1 else 0);
    forall i: nat | FirstEffective(r, f, i)
      ensures !Intact(TornFill(r, f, i + 1))
    {
      var torn := TornFill(r, f, i + 1);
      assert torn.body == r.body[i := torn.body[i]];
      OneWordInvalidates(r, torn);
    }
  }

  /** Over junk the same tear can invent a record: exactly when the junk's check
      already is the check of the junk with that one word replaced. */
  lemma TornFillOverJunk(r: Record, f: Fault, i: nat)
    requires !Intact(r) && FirstEffective(r, f, i)
    ensures Intact(TornFill(r, f, i + 1)) <==> r.check == CheckOf(r.body[i := FilledBody(r, f)[i]])
  {
    hide CheckOf;
    assert TornFill(r, f, i + 1).body == r.body[i := FilledBody(r, f)[i]];
  }

  /** Both kinds of junk do: with a dead state word that the first store revives,
      and with a live one beside a wrong number that the second store corrects. */
  lemma TornFillInvents(f: Fault)
    ensures exists r: Record :: !Intact(r) && r.State() != LIVE && FirstEffective(r, f, 0) && Intact(TornFill(r, f, 1))
    ensures exists r: Record :: !Intact(r) && r.State() == LIVE && FirstEffective(r, f, 1) && Intact(TornFill(r, f, 2))
  {
    var dead := RevivedJunk(f);
    var wrong := CorrectedJunk(f);
  }

  lemma RevivedJunk(f: Fault) returns (r: Record)
    ensures !Intact(r) && r.State() != LIVE && FirstEffective(r, f, 0) && Intact(TornFill(r, f, 1))
  {
    hide CheckOf;
    var live: Body := [LIVE, 0, 0, 0, 0, 0, 0, 0];
    r := Record([0, 0, 0, 0, 0, 0, 0, 0], CheckOf(live));
    assert r.body[0 := LIVE] == live;
    TornFillOverJunk(r, f, 0);
  }

  lemma CorrectedJunk(f: Fault) returns (r: Record)
    ensures !Intact(r) && r.State() == LIVE && FirstEffective(r, f, 1) && Intact(TornFill(r, f, 2))
  {
    hide CheckOf;
    var wrong: Body := [LIVE, 2, 0, 0, 0, 0, 0, 0];
    r := Record(wrong, CheckOf(wrong[1 := 1]));
    OneWordChecks(wrong, 1, 1);
    TornFillOverJunk(r, f, 1);
  }

  lemma OneWordChecks(body: Body, i: nat, w: Word)
    requires i < 8 && body[i] != w
    ensures CheckOf(body[i := w]) != CheckOf(body)
  {
    hide Mix;
    OneWordShows(CHECK_SEED, body, i, w);
  }

  /** Whatever the record was, no two tears with one changed word between them
      both leave an intact one. */
  lemma TornFillsApart(r: Record, f: Fault, i: nat)
    requires i < 8 && FilledBody(r, f)[i] != r.body[i]
    ensures !(Intact(TornFill(r, f, i)) && Intact(TornFill(r, f, i + 1)))
  {
    hide CheckOf;
    var before, after := TornFill(r, f, i), TornFill(r, f, i + 1);
    assert after.body == before.body[i := after.body[i]];
    if Intact(before) {
      OneWordInvalidates(before, after);
    }
  }

  /** A fill torn anywhere: no record, or the old one untouched, or one that
      carries the next number. The exception is junk that the store of the state
      word alone revives, with a number of its own. */
  lemma TornFillNumber(r: Record, f: Fault, stores: nat)
    requires stores <= 8 && Intact(TornFill(r, f, stores)) && TornFill(r, f, stores) != r
    ensures TornFill(r, f, stores).Seq() != NextSeq(r) ==> stores == 1 && !Intact(r) && r.State() != LIVE
    ensures stores == 1 ==> !Intact(r) && TornFill(r, f, stores).Seq() == r.Seq()
  {
    hide CheckOf;
    var torn := TornFill(r, f, stores);
    assert stores == 0 ==> torn.body == r.body;
    if stores == 1 {
      assert torn.body == r.body[0 := LIVE];
      if Intact(r) {
        OneWordInvalidates(r, torn);
      }
    }
  }

  /** A reset between the two stores of `mark_reported` drops the record. */
  lemma TornReportInvalid(r: Record)
    requires Valid(r, LIVE)
    ensures !Intact(Downgraded(r))
  {
    hide CheckOf;
    assert LIVE != REPORTED;
    OneWordInvalidates(r, Downgraded(r));
  }

  // ---- the same in place ---------------------------------------------------

  class Cell {
    var body: array<Word>
    var check: Word

    ghost predicate Shaped()
      reads this
    {
      body.Length == 8
    }

    ghost function View(): Record
      requires Shaped()
      reads this, body
    {
      Record(body[..], check)
    }

    /** mcuhome_breadcrumb_check */
    method ComputeCheck() returns (c: Word)
      requires Shaped()
      ensures c == CheckOf(View().body)
    {
      c := CHECK_SEED;
      var i := 0;
      while i < 8
        invariant 0 <= i <= 8
        invariant Mix(c, body[i..]) == CheckOf(body[..])
      {
        assert body[i..][1..] == body[i + 1..];
        c := (Xor(c, body[i]) * 2654435761) % 0x1_0000_0000;
        c := Xor(c, c / 0x1_0000);
        i := i + 1;
      }
    }

    method IsValid(state: Word) returns (yes: bool)
      requires Shaped()
      ensures yes <==> Valid(View(), state)
    {
      var c := ComputeCheck();
      yes := body[0] == state && check == c;
    }

    /** mcuhome_breadcrumb_fill */
    method Fill(f: Fault)
      requires Shaped()
      modifies this`check, body
      ensures View() == Filled(old(View()), f) && Valid(View(), LIVE)
      ensures body[0] == LIVE && body[1] == NextSeq(old(View()))
      ensures body[2] == f.reason && body[3] == f.pc && body[4] == f.lr
      ensures body[5] == f.cfsr && body[6] == f.hfsr && body[7] == f.bfar
      ensures Holds(View(), f) && CrashTold(View()) == Some(Crash(NextSeq(old(View())), f))
    {
      hide CheckOf;
      var next: Word := 1;
      var live := IsValid(LIVE);
      var reported := IsValid(REPORTED);
      if live || reported {
        next := Increment(body[1]);
      }
      body[0], body[1], body[2], body[3] := LIVE, next, f.reason, f.pc;
      body[4], body[5], body[6], body[7] := f.lr, f.cfsr, f.hfsr, f.bfar;
      assert body[..] == FilledBody(old(View()), f);
      check := ComputeCheck();
    }

    /** mcuhome_breadcrumb_mark_reported */
    method MarkReported()
      requires Shaped()
      modifies this`check, body
      ensures View() == Reported(old(View())) && Valid(View(), REPORTED)
      ensures CrashTold(View()) == None && forall i :: 1 <= i < 8 ==> body[i] == old(body[i])
    {
      hide CheckOf;
      body[0] := REPORTED;
      assert body[..] == old(body[..])[0 := REPORTED];
      check := ComputeCheck();
    }

    /** mcuhome_health_breadcrumb_report: at boot, once. */
    method ReportAtBoot() returns (told: Option<Crash>)
      requires Shaped()
      modifies this`check, body
      ensures told == CrashTold(old(View())) && CrashTold(View()) == None
      ensures told.Some? <==> old(Valid(View(), LIVE))
      ensures told.Some? ==> told.value.number == old(body[1]) && Holds(old(View()), told.value.fault)
      ensures View() == if told.Some? then Reported(old(View())) else old(View())
    {
      var live := IsValid(LIVE);
      if !live {
        return None;
      }
      var fault := Fault(body[2], body[3], body[4], body[5], body[6], body[7]);
      told := Some(Crash(body[1], fault));
      MarkReported();
    }

    /** mcuhome_health_fault_count */
    method FaultCount() returns (n: Word)
      requires Shaped()
      ensures n == CountOf(View())
    {
      var live := IsValid(LIVE);
      var reported := IsValid(REPORTED);
      n := if live || reported then body[1] else 0;
    }
  }

  function CountOf(r: Record): Word {
    if Intact(r) then r.Seq() else 0
  }

  // ---- runs of faults, boots, resets and clobbering ------------------------

  datatype Action =
    | FaultRaised(fault: Fault)
    | FaultTorn(fault: Fault, stores: nat)
    | BootReport
    | BootReportTorn
    | Reset
    | Clobbered(junk: Record)

  /** `fills` counts the fills since the record was last not intact, with a torn
      one that left a new record behind; `last` is the fault of the last fill, while
      nothing but reports has touched its record. */
  datatype Machine = Machine(record: Record, inFatalPath: bool, fills: nat, last: Option<Fault>)

  ghost predicate Enabled(m: Machine, a: Action) {
    match a
    case FaultTorn(f, stores) => !m.inFatalPath && stores <= 8
    case BootReportTorn => Valid(m.record, LIVE)
    case Clobbered(junk) => !Intact(junk)
    case _ => true
  }

  function FillsOf(m: Machine): nat {
    if Intact(m.record) then m.fills else 0
  }

  /** The handler's guard is set on entry and cleared by the reset only. A tear is
      a reset: after any number of stores, over any record. */
  ghost function Act(m: Machine, a: Action): Machine
    requires Enabled(m, a)
  {
    match a
    case FaultRaised(f) =>
      if m.inFatalPath then m else Machine(Filled(m.record, f), true, FillsOf(m) + 1, Some(f))
    case FaultTorn(f, stores) =>
      var torn := TornFill(m.record, f, stores);
      if torn == m.record then m.(inFatalPath := false)
      else Machine(torn, false, if Intact(torn) then FillsOf(m) + 1 else 0, None)
    case BootReport => if Valid(m.record, LIVE) then m.(record := Reported(m.record)) else m
    case BootReportTorn => Machine(Downgraded(m.record), false, 0, None)
    case Reset => m.(inFatalPath := false)
    case Clobbered(junk) => Machine(junk, m.inFatalPath, 0, None)
  }

  ghost predicate Runs(m: Machine, acts: seq<Action>, m': Machine)
    decreases |acts|
  {
    if acts == [] then m == m'
    else Enabled(m, acts[0]) && Runs(Act(m, acts[0]), acts[1..], m')
  }

  ghost predicate Counted(m: Machine) {
    CountOf(m.record) == m.fills % 0x1_0000_0000 && (m.fills > 0 <==> Intact(m.record))
  }

  ghost predicate CountedThroughout(m: Machine, acts: seq<Action>)
    decreases |acts|
  {
    Counted(m) && (acts == [] || (Enabled(m, acts[0]) && CountedThroughout(Act(m, acts[0]), acts[1..])))
  }

  /** A reset behind the very first store of a fill over junk whose check is that
      of the junk with a live state word, and whose number is not 1. */
  predicate Revives(m: Machine, a: Action) {
    && a.FaultTorn? && a.stores == 1
    && !Intact(m.record) && m.record.Seq() != 1 && m.record.check == CheckOf(m.record.body[0 := LIVE])
  }

  ghost predicate NoneRevives(m: Machine, acts: seq<Action>)
    decreases |acts|
  {
    acts == [] || (Enabled(m, acts[0]) && !Revives(m, acts[0]) && NoneRevives(Act(m, acts[0]), acts[1..]))
  }

  lemma TornFillCounts(m: Machine, f: Fault, stores: nat)
    requires Counted(m) && Enabled(m, FaultTorn(f, stores))
    ensures Counted(Act(m, FaultTorn(f, stores))) <==> !Revives(m, FaultTorn(f, stores))
  {
    hide CheckOf;
    var torn := TornFill(m.record, f, stores);
    if stores == 1 {
      assert torn.body == m.record.body[0 := LIVE];
    }
    if Intact(torn) && torn != m.record {
      TornFillNumber(m.record, f, stores);
    }
    IncrementCounts(FillsOf(m));
  }

  lemma IncrementCounts(n: nat)
    ensures (n + 1) % 0x1_0000_0000 == Increment(n % 0x1_0000_0000)
  {
  }

  /** The stored sequence number is the number of fills since the record was last
      lost, modulo 2^32: over a run with tears at every store of a fill, over any
      record, at every moment if and only if no tear revives junk. A fault inside
      the handler adds nothing, and a torn report leaves no record. */
  lemma {:induction false} SeqCountsFaults(m: Machine, acts: seq<Action>, m': Machine)
    requires Counted(m) && Runs(m, acts, m')
    ensures CountedThroughout(m, acts) <==> NoneRevives(m, acts)
    ensures NoneRevives(m, acts) ==> Counted(m')
    decreases |acts|
  {
    hide CheckOf;
    hide Revives;
    if acts != [] {
      var next := Act(m, acts[0]);
      OneActCounts(m, acts[0]);
      if Counted(next) {
        SeqCountsFaults(next, acts[1..], m');
      }
    }
  }

  lemma OneActCounts(m: Machine, a: Action)
    requires Counted(m) && Enabled(m, a)
    ensures Counted(Act(m, a)) <==> !Revives(m, a)
  {
    hide CheckOf;
    match a {
      case FaultTorn(f, stores) => TornFillCounts(m, f, stores);
      case BootReportTorn => TornReportInvalid(m.record);
      case FaultRaised(_) => IncrementCounts(FillsOf(m));
      case _ =>
    }
  }

  /** The record of the last fill stands. */
  ghost predicate Standing(m: Machine) {
    m.last.Some? ==> Intact(m.record) && Holds(m.record, m.last.value)
  }

  lemma {:induction false} RunsStand(m: Machine, acts: seq<Action>, m': Machine)
    requires Standing(m) && Runs(m, acts, m')
    ensures Standing(m')
    decreases |acts|
  {
    hide CheckOf;
    if acts != [] {
      RunsStand(Act(m, acts[0]), acts[1..], m');
    }
  }

  /** What a boot tells is the fault that was filled last, and its number the fills
      since the record was last lost: over any run in which no tear revived junk,
      while nothing else has touched that record. */
  lemma BootTellsTheLastFault(m: Machine, acts: seq<Action>, m': Machine)
    requires Counted(m) && Standing(m) && Runs(m, acts, m') && NoneRevives(m, acts)
    requires m'.last.Some? && m'.record.State() == LIVE
    ensures CrashTold(m'.record) == Some(Crash(m'.fills % 0x1_0000_0000, m'.last.value))
    ensures CrashTold(Act(m', BootReport).record) == None && Act(m', BootReport).last == m'.last
  {
    hide CheckOf;
    hide NoneRevives;
    hide Runs;
    SeqCountsFaults(m, acts, m');
    RunsStand(m, acts, m');
    assert Valid(m'.record, LIVE);
  }

  /** From the first fault of a boot to the reset, further faults change nothing. */
  lemma {:induction false} NestedFaultsAddNothing(m: Machine, acts: seq<Action>, m': Machine)
    requires m.inFatalPath && Runs(m, acts, m')
    requires forall i :: 0 <= i < |acts| ==> acts[i].FaultRaised?
    ensures m' == m
    decreases |acts|
  {
    if acts != [] {
      NestedFaultsAddNothing(m, acts[1..], m');
    }
  }
}
