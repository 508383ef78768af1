/** The patches of one session (mcuhome/compiler/abi.py, _Build._apply_patches):
    any number of invocations, each of which may die between any two steps. */
module PatchSession {
  import opened Wrappers
  import opened PatchRecord
  import Utf8

  type Name = string

  /** A name's UTF-8 bytes, the key its patches are sorted by. */
  function Bytes(n: Name): seq<Byte> {
    Utf8.EncodeAll(seq(|n|, i requires 0 <= i < |n| => n[i] as int))
  }

  predicate Ascending(names: seq<Name>) {
    forall i, k :: 0 <= i < k < |names| ==> Utf8.Less(Bytes(names[i]), Bytes(names[k]))
  }

  lemma AscendingDistinct(names: seq<Name>)
    requires Ascending(names)
    ensures forall i, k :: 0 <= i < k < |names| ==> names[i] != names[k]
  {
    forall i, k | 0 <= i < k < |names|
      ensures names[i] != names[k]
    {
      Utf8.Trichotomy(Bytes(names[i]), Bytes(names[i]));
    }
  }

  /** sorted(..., key=the name's bytes) */
  function Put(n: Name, sorted: seq<Name>): (r: seq<Name>)
    ensures multiset(r) == multiset(sorted) + multiset{n}
  {
    if sorted == [] || !Utf8.Less(Bytes(sorted[0]), Bytes(n)) then [n] + sorted
    else
      assert sorted == [sorted[0]] + sorted[1..];
      [sorted[0]] + Put(n, sorted[1..])
  }

  function InByteOrder(names: seq<Name>): (r: seq<Name>)
    ensures multiset(r) == multiset(names)
  {
    if names == [] then []
    else
      assert names == [names[0]] + names[1..];
      Put(names[0], InByteOrder(names[1..]))
  }

  lemma Apart(a: Name, b: Name)
    requires a != b
    ensures Utf8.Less(Bytes(a), Bytes(b)) || Utf8.Less(Bytes(b), Bytes(a))
  {
    var s := seq(|a|, i requires 0 <= i < |a| => a[i] as int);
    var t := seq(|b|, i requires 0 <= i < |b| => b[i] as int);
    assert s != t by {
      if |a| == |b| {
        var i :| 0 <= i < |a| && a[i] != b[i];
        assert s[i] != t[i];
      }
    }
    Utf8.Trichotomy(s, t);
    Utf8.OrderIsByteOrder(s, t);
    Utf8.OrderIsByteOrder(t, s);
  }

  lemma AscendsBehind(n: Name, sorted: seq<Name>)
    requires Ascending(sorted) && forall m :: m in sorted ==> Utf8.Less(Bytes(n), Bytes(m))
    ensures Ascending([n] + sorted)
  {
    hide Bytes;
    var all := [n] + sorted;
    assert forall i :: 0 < i < |all| ==> all[i] == sorted[i - 1] && all[i] in sorted;
  }

  lemma {:induction false} PutAscends(n: Name, sorted: seq<Name>)
    requires Ascending(sorted) && n !in sorted
    ensures Ascending(Put(n, sorted))
  {
    hide Bytes;
    if sorted == [] || !Utf8.Less(Bytes(sorted[0]), Bytes(n)) {
      forall m | m in sorted
        ensures Utf8.Less(Bytes(n), Bytes(m))
      {
        var i :| 0 <= i < |sorted| && sorted[i] == m;
        Apart(n, sorted[0]);
        if i > 0 {
          Utf8.LessTransitive(Bytes(n), Bytes(sorted[0]), Bytes(m));
        }
      }
      AscendsBehind(n, sorted);
    } else {
      PutAscends(n, sorted[1..]);
      var rest := Put(n, sorted[1..]);
      forall m | m in rest
        ensures Utf8.Less(Bytes(sorted[0]), Bytes(m))
      {
        assert m in multiset(rest);
        assert m == n || m in sorted[1..];
      }
      AscendsBehind(sorted[0], rest);
    }
  }

  lemma {:induction false} InByteOrderAscends(names: seq<Name>)
    requires forall i, k :: 0 <= i < k < |names| ==> names[i] != names[k]
    ensures Ascending(InByteOrder(names))
  {
    if names != [] {
      InByteOrderAscends(names[1..]);
      var rest := InByteOrder(names[1..]);
      assert names[0] in rest <==> names[0] in multiset(rest);
      PutAscends(names[0], rest);
    }
  }

  // ---- one session -----------------------------------------------------------

  /** What the locked context fixes: the patched layers, their patches in
      ascending byte order of name, and the digest of each patch set. */
  datatype Context = Context(names: seq<Name>, patches: map<Name, seq<Name>>, digests: map<Name, string>)

  ghost predicate WellFormed(c: Context) {
    && (forall n :: n in c.names ==> n in c.patches && n in c.digests)
    && (forall i, k :: 0 <= i < k < |c.names| ==> c.names[i] != c.names[k])
    && forall n :: n in c.names ==> Ascending(c.patches[n])
  }

  /** The context as a session finds it: each layer's directory in the order the
      file system lists it. */
  function Locked(names: seq<Name>, directories: map<Name, seq<Name>>, digests: map<Name, string>): Context {
    Context(names, map n | n in directories :: InByteOrder(directories[n]), digests)
  }

  ghost predicate Directories(names: seq<Name>, directories: map<Name, seq<Name>>, digests: map<Name, string>) {
    && (forall n :: n in names ==> n in directories && n in digests)
    && (forall i, k :: 0 <= i < k < |names| ==> names[i] != names[k])
    && forall n, i, k :: n in names && 0 <= i < k < |directories[n]| ==> directories[n][i] != directories[n][k]
  }

  lemma LockedIsWellFormed(names: seq<Name>, directories: map<Name, seq<Name>>, digests: map<Name, string>)
    requires Directories(names, directories, digests)
    ensures WellFormed(Locked(names, directories, digests))
  {
    forall n | n in names
      ensures Ascending(InByteOrder(directories[n]))
    {
      InByteOrderAscends(directories[n]);
    }
  }

  /** What git left in a layer's tree, in the order it happened. */
  datatype Mark = Applied(patch: Name) | Torn(patch: Name)

  datatype Pc =
    | Idle
    | Looking(layer: nat)
    | Writing(layer: nat, phase: Phase, written: nat)
    | Patching(layer: nat, next: nat)

  datatype State = State(records: map<Name, string>, trees: map<Name, seq<Mark>>, pc: Pc, succeeded: bool)

  const PRISTINE := State(map[], map[], Idle, false)

  function Tree(s: State, n: Name): seq<Mark> {
    if n in s.trees then s.trees[n] else []
  }

  datatype Verdict = Usable | Unknown | NotWritable

  /** git apply: it works, it refuses, or the program dies in the middle with
      nothing, a part or all of the patch in the tree. */
  datatype Git = Applies | Refuses | DiesBefore | DiesHalfway | DiesAfter

  datatype Act = Begin | Look(verdict: Verdict) | Write(upto: nat) | Patch(git: Git) | Die

  function Text(c: Context, n: Name, p: Phase): string
    requires n in c.digests
  {
    Document(n, c.digests[n], p)
  }

  predicate Enabled(c: Context, s: State, a: Act) {
    match a
    case Begin => s.pc.Idle?
    case Look(_) => s.pc.Looking?
    case Write(upto) =>
      && s.pc.Writing? && s.pc.layer < |c.names| && c.names[s.pc.layer] in c.digests
      && s.pc.written < upto <= |Text(c, c.names[s.pc.layer], s.pc.phase)|
    case Patch(_) =>
      s.pc.Patching? && s.pc.layer < |c.names| && c.names[s.pc.layer] in c.patches
    case Die => !s.pc.Idle?
  }

  function Stopped(s: State): State {
    s.(pc := Idle)
  }

  /** One layer looked at: refused, already complete, or started for its record. */
  function AfterLook(c: Context, s: State, verdict: Verdict): State
    requires WellFormed(c) && s.pc.Looking?
  {
    var k := s.pc.layer;
    if k >= |c.names| then s.(pc := Idle, succeeded := true)
    else
      var n := c.names[k];
      if !verdict.Usable? then Stopped(s)
      else if n in s.records then
        if ReadsComplete(n, c.digests[n], s.records[n]) then s.(pc := Looking(k + 1)) else Stopped(s)
      else s.(records := s.records[n := ""], pc := Writing(k, Started, 0))
  }

  function AfterWrite(c: Context, s: State, upto: nat): State
    requires WellFormed(c) && Enabled(c, s, Write(upto))
  {
    var k, phase := s.pc.layer, s.pc.phase;
    var n := c.names[k];
    var text := Text(c, n, phase);
    s.(records := s.records[n := text[..upto]],
       pc := if upto < |text| then Writing(k, phase, upto)
             else if phase.Started? then Patching(k, 0) else Looking(k + 1))
  }

  /** The next patch, or the record truncated to say complete. */
  function AfterPatch(c: Context, s: State, git: Git): State
    requires WellFormed(c) && Enabled(c, s, Patch(git))
  {
    var k, i := s.pc.layer, s.pc.next;
    var n := c.names[k];
    if i >= |c.patches[n]| then s.(records := s.records[n := ""], pc := Writing(k, Complete, 0))
    else
      var p := c.patches[n][i];
      match git
      case Applies => s.(trees := s.trees[n := Tree(s, n) + [Applied(p)]], pc := Patching(k, i + 1))
      case Refuses => Stopped(s)
      case DiesBefore => Stopped(s)
      case DiesHalfway => Stopped(s.(trees := s.trees[n := Tree(s, n) + [Torn(p)]]))
      case DiesAfter => Stopped(s.(trees := s.trees[n := Tree(s, n) + [Applied(p)]]))
  }

  function After(c: Context, s: State, a: Act): State
    requires WellFormed(c) && Enabled(c, s, a)
  {
    match a
    case Begin => s.(pc := Looking(0), succeeded := false)
    case Look(verdict) => AfterLook(c, s, verdict)
    case Write(upto) => AfterWrite(c, s, upto)
    case Patch(git) => AfterPatch(c, s, git)
    case Die => Stopped(s)
  }

  /** The session after `acts`; an act that is not enabled is not taken. */
  function Run(c: Context, s: State, acts: seq<Act>): State
    requires WellFormed(c)
    decreases |acts|
  {
    if acts == [] then s
    else Run(c, if Enabled(c, s, acts[0]) then After(c, s, acts[0]) else s, acts[1..])
  }

  // ---- what every step keeps -----------------------------------------------------

  function AllOf(patches: seq<Name>, n: nat): (marks: seq<Mark>)
    requires n <= |patches|
    ensures |marks| == n && forall i :: 0 <= i < n ==> marks[i] == Applied(patches[i])
  {
    seq(n, i requires 0 <= i < n => Applied(patches[i]))
  }

  predicate Done(c: Context, s: State, n: Name)
    requires n in c.digests
  {
    n in s.records && ReadsComplete(n, c.digests[n], s.records[n])
  }

  /** Marks of a layer the session gave up on: a part of the patches, the last
      one perhaps half applied. */
  predicate Partial(patches: seq<Name>, marks: seq<Mark>) {
    && |marks| <= |patches|
    && (forall i :: 0 <= i < |marks| ==> marks[i].patch == patches[i])
    && (forall i :: 0 <= i < |marks| - 1 ==> marks[i].Applied?)
  }

  predicate IsPrefix(text: string, whole: string) {
    |text| <= |whole| && text == whole[..|text|]
  }

  /** What holds of one layer, wherever the session is. */
  ghost predicate LayerOk(c: Context, s: State, n: Name)
    requires n in c.patches && n in c.digests
  {
    var patches := c.patches[n];
    && (n !in s.records ==> Tree(s, n) == [])
    && (n in s.records ==> IsPrefix(s.records[n], Text(c, n, Started)) || IsPrefix(s.records[n], Text(c, n, Complete)))
    && (Done(c, s, n) ==> Tree(s, n) == AllOf(patches, |patches|))
    && Partial(patches, Tree(s, n))
  }

  ghost predicate PcOk(c: Context, s: State)
    requires WellFormed(c)
  {
    match s.pc
    case Idle => true
    case Looking(k) => k <= |c.names|
    case Writing(k, phase, written) =>
      && k < |c.names|
      && var n := c.names[k];
         && n in s.records && written < |Text(c, n, phase)| && s.records[n] == Text(c, n, phase)[..written]
         && Tree(s, n) == if phase.Started? then [] else AllOf(c.patches[n], |c.patches[n]|)
    case Patching(k, i) =>
      && k < |c.names|
      && var n := c.names[k];
         && n in s.records && s.records[n] == Text(c, n, Started)
         && i <= |c.patches[n]| && Tree(s, n) == AllOf(c.patches[n], i)
  }

  function Passed(s: State): nat {
    match s.pc
    case Idle => 0
    case Looking(k) => k
    case Writing(k, _, _) => k
    case Patching(k, _) => k
  }

  ghost predicate Inv(c: Context, s: State)
    requires WellFormed(c)
  {
    && PcOk(c, s)
    && (forall n :: n in c.names ==> LayerOk(c, s, n))
    && (forall i :: 0 <= i < Passed(s) ==> Done(c, s, c.names[i]))
    && (s.succeeded ==> forall n :: n in c.names ==> Done(c, s, n))
  }

  lemma OtherLayers(c: Context, s: State, t: State, n: Name)
    requires WellFormed(c) && n in c.names && forall m :: m in c.names ==> LayerOk(c, s, m)
    requires forall m :: m != n ==> (m in s.records <==> m in t.records) && Tree(s, m) == Tree(t, m)
    requires forall m :: m != n && m in s.records ==> s.records[m] == t.records[m]
    requires LayerOk(c, t, n)
    ensures forall m :: m in c.names ==> LayerOk(c, t, m)
    ensures forall m :: m in c.names && m != n ==> (Done(c, s, m) <==> Done(c, t, m))
  {
    hide ReadsComplete;
    hide Partial;
    hide IsPrefix;
    hide Document;
    forall m | m in c.names
      ensures LayerOk(c, t, m)
    {
      assert LayerOk(c, s, m);
    }
  }

  lemma PartialOfAll(patches: seq<Name>, i: nat)
    requires i <= |patches|
    ensures Partial(patches, AllOf(patches, i))
    ensures i < |patches| ==> AllOf(patches, i) + [Applied(patches[i])] == AllOf(patches, i + 1)
    ensures i < |patches| ==> Partial(patches, AllOf(patches, i) + [Torn(patches[i])])
  {
  }

  lemma Opened(c: Context, n: Name)
    requires n in c.digests
    ensures !ReadsComplete(n, c.digests[n], "") && IsPrefix("", Text(c, n, Started))
    ensures |Text(c, n, Started)| > 1 && |Text(c, n, Complete)| > 1
  {
  }

  lemma OpeningKeeps(c: Context, s: State, t: State)
    requires WellFormed(c) && s.pc.Looking? && s.pc.layer < |c.names| && c.names[s.pc.layer] !in s.records
    requires forall m :: m in c.names ==> LayerOk(c, s, m)
    requires var n := c.names[s.pc.layer]; t == s.(records := s.records[n := ""], pc := Writing(s.pc.layer, Started, 0))
    ensures PcOk(c, t)
    ensures forall m :: m in c.names ==> LayerOk(c, t, m) && (Done(c, s, m) ==> Done(c, t, m))
  {
    hide Partial;
    hide IsPrefix;
    hide ReadsComplete;
    hide Document;
    var n := c.names[s.pc.layer];
    Opened(c, n);
    assert LayerOk(c, s, n);
    assert Tree(t, n) == Tree(s, n);
    OtherLayers(c, s, t, n);
  }

  lemma LookKeeps(c: Context, s: State, verdict: Verdict)
    requires WellFormed(c) && Inv(c, s) && s.pc.Looking?
    ensures Inv(c, AfterLook(c, s, verdict))
  {
    hide Partial;
    hide IsPrefix;
    var k, t := s.pc.layer, AfterLook(c, s, verdict);
    hide ReadsComplete;
    hide Document;
    if t.pc.Writing? {
      OpeningKeeps(c, s, t);
      hide LayerOk;
      hide Tree;
    } else {
      Same(c, s, t);
      hide LayerOk;
      hide Tree;
    }
  }

  lemma Same(c: Context, s: State, t: State)
    requires WellFormed(c) && s.records == t.records && s.trees == t.trees
    requires forall m :: m in c.names ==> LayerOk(c, s, m)
    ensures forall m :: m in c.names ==> LayerOk(c, t, m) && (Done(c, s, m) <==> Done(c, t, m))
  {
    hide ReadsComplete;
    hide Partial;
    hide IsPrefix;
    hide Document;
    forall m | m in c.names
      ensures LayerOk(c, t, m)
    {
      assert LayerOk(c, s, m);
    }
  }

  lemma WriteKeeps(c: Context, s: State, upto: nat)
    requires WellFormed(c) && Inv(c, s) && Enabled(c, s, Write(upto))
    ensures Inv(c, AfterWrite(c, s, upto))
  {
    var t, n := AfterWrite(c, s, upto), c.names[s.pc.layer];
    assert LayerOk(c, s, n);
    WrittenLayer(c, s, upto);
    hide ReadsComplete;
    hide Document;
    hide Partial;
    hide IsPrefix;
    OtherLayers(c, s, t, n);
    hide LayerOk;
    hide PcOk;
  }

  lemma WrittenLayer(c: Context, s: State, upto: nat)
    requires WellFormed(c) && PcOk(c, s) && Enabled(c, s, Write(upto)) && LayerOk(c, s, c.names[s.pc.layer])
    ensures PcOk(c, AfterWrite(c, s, upto)) && LayerOk(c, AfterWrite(c, s, upto), c.names[s.pc.layer])
    ensures AfterWrite(c, s, upto).pc.Looking? ==> Done(c, AfterWrite(c, s, upto), c.names[s.pc.layer])
    ensures !Done(c, s, c.names[s.pc.layer]) || Done(c, AfterWrite(c, s, upto), c.names[s.pc.layer])
  {
    hide Front;
    var phase, t := s.pc.phase, AfterWrite(c, s, upto);
    var n := c.names[s.pc.layer];
    var text := Text(c, n, phase);
    assert Tree(t, n) == Tree(s, n);
    assert text[..|text|] == text;
    if phase.Started? {
      StartedIsNotComplete(n, c.digests[n], upto);
    }
    WrittenReads(c, n, phase);
    hide ReadsComplete;
    hide Document;
    assert LayerOk(c, t, n);
  }

  lemma WrittenReads(c: Context, n: Name, phase: Phase)
    requires n in c.digests
    ensures phase.Complete? ==> ReadsComplete(n, c.digests[n], Text(c, n, phase))
  {
  }

  lemma PatchKeeps(c: Context, s: State, git: Git)
    requires WellFormed(c) && Inv(c, s) && Enabled(c, s, Patch(git))
    ensures Inv(c, AfterPatch(c, s, git))
  {
    hide ReadsComplete;
    hide Document;
    hide Partial;
    hide IsPrefix;
    var k, t := s.pc.layer, AfterPatch(c, s, git);
    var n := c.names[k];
    if s.pc.next < |c.patches[n]| && (git.Refuses? || git.DiesBefore?) {
      Same(c, s, t);
    } else {
      assert LayerOk(c, s, n);
      PatchedLayer(c, s, git);
      OtherLayers(c, s, t, n);
    }
  }

  lemma PatchedLayer(c: Context, s: State, git: Git)
    requires WellFormed(c) && PcOk(c, s) && Enabled(c, s, Patch(git)) && LayerOk(c, s, c.names[s.pc.layer])
    ensures PcOk(c, AfterPatch(c, s, git)) && LayerOk(c, AfterPatch(c, s, git), c.names[s.pc.layer])
    ensures !Done(c, s, c.names[s.pc.layer])
  {
    hide Front;
    var n := c.names[s.pc.layer];
    Opened(c, n);
    var text := Text(c, n, Started);
    assert text[..|text|] == text;
    StartedIsNotComplete(n, c.digests[n], |text|);
    PartialOfAll(c.patches[n], s.pc.next);
    hide ReadsComplete;
    hide Document;
    hide Partial;
  }

  lemma StepKeepsInv(c: Context, s: State, a: Act)
    requires WellFormed(c) && Inv(c, s) && Enabled(c, s, a)
    ensures Inv(c, After(c, s, a))
  {
    match a
    case Begin => Same(c, s, After(c, s, a));
    case Look(verdict) => LookKeeps(c, s, verdict);
    case Write(upto) => WriteKeeps(c, s, upto);
    case Patch(git) => PatchKeeps(c, s, git);
    case Die => Same(c, s, After(c, s, a));
  }

  // ---- over whole sessions ---------------------------------------------------------

  lemma {:induction false} RunKeepsInv(c: Context, s: State, acts: seq<Act>)
    requires WellFormed(c) && Inv(c, s)
    ensures Inv(c, Run(c, s, acts))
    decreases |acts|
  {
    hide Inv;
    if acts != [] {
      if Enabled(c, s, acts[0]) {
        StepKeepsInv(c, s, acts[0]);
        RunKeepsInv(c, After(c, s, acts[0]), acts[1..]);
      } else {
        RunKeepsInv(c, s, acts[1..]);
      }
    }
  }

  lemma Begins(c: Context)
    requires WellFormed(c)
    ensures Inv(c, PRISTINE)
  {
    forall n | n in c.names
      ensures LayerOk(c, PRISTINE, n)
    {
      assert Tree(PRISTINE, n) == [];
    }
  }

  /** No record means a pristine tree, complete means exactly all patches in
      ascending byte order, whatever died where; and no patch is put into a tree
      twice. */
  lemma OncePerSession(c: Context, acts: seq<Act>, n: Name)
    requires WellFormed(c) && n in c.names
    ensures var s := Run(c, PRISTINE, acts);
            && (n !in s.records ==> Tree(s, n) == [])
            && (Done(c, s, n) ==> Tree(s, n) == AllOf(c.patches[n], |c.patches[n]|))
            && (forall i, k :: 0 <= i < k < |Tree(s, n)| ==> Tree(s, n)[i].patch != Tree(s, n)[k].patch)
            && (s.succeeded ==> forall m :: m in c.names ==> Tree(s, m) == AllOf(c.patches[m], |c.patches[m]|))
  {
    var s := Run(c, PRISTINE, acts);
    Begins(c);
    RunKeepsInv(c, PRISTINE, acts);
    assert LayerOk(c, s, n);
    AscendingDistinct(c.patches[n]);
    hide Document;
    hide ReadsComplete;
    if s.succeeded {
      forall m | m in c.names
        ensures Tree(s, m) == AllOf(c.patches[m], |c.patches[m]|)
      {
        assert LayerOk(c, s, m) && Done(c, s, m);
      }
    }
  }

  /** A complete layer holds every file of its directory once, and they went in in
      ascending byte order of their names. */
  lemma OnceInByteOrder(names: seq<Name>, directories: map<Name, seq<Name>>, digests: map<Name, string>,
                        acts: seq<Act>, n: Name)
    requires Directories(names, directories, digests) && n in names
    ensures var c := Locked(names, directories, digests);
            WellFormed(c)
            && var s := Run(c, PRISTINE, acts);
               Done(c, s, n) ==>
                 exists patches: seq<Name> :: Ascending(patches) && multiset(patches) == multiset(directories[n])
                                              && Tree(s, n) == AllOf(patches, |patches|)
  {
    var c := Locked(names, directories, digests);
    LockedIsWellFormed(names, directories, digests);
    OncePerSession(c, acts, n);
    assert c.patches[n] == InByteOrder(directories[n]);
    assert Ascending(c.patches[n]);
    hide Run;
  }

  /** The program is not at work on this layer. */
  predicate Elsewhere(c: Context, s: State, n: Name) {
    match s.pc
    case Idle => true
    case Looking(_) => true
    case Writing(k, _, _) => k < |c.names| && c.names[k] != n
    case Patching(k, _) => k < |c.names| && c.names[k] != n
  }

  /** A step about another layer, or a look at this one. */
  predicate Settled(c: Context, s: State, t: State, n: Name)
    requires n in c.digests
  {
    && n in s.records && n in t.records && t.records[n] == s.records[n] && Tree(t, n) == Tree(s, n)
      && Elsewhere(c, t, n)
    && (!Done(c, s, n) ==> !t.succeeded)
  }

  lemma LookSettles(c: Context, s: State, verdict: Verdict, n: Name)
    requires WellFormed(c) && Inv(c, s) && s.pc.Looking? && n in c.names && n in s.records
    ensures Settled(c, s, AfterLook(c, s, verdict), n)
  {
    hide LayerOk;
    hide ReadsComplete;
    hide Document;
    NotYet(c, s, n);
    if s.pc.layer >= |c.names| {
      var i :| 0 <= i < |c.names| && c.names[i] == n;
    }
  }

  lemma WriteSettles(c: Context, s: State, upto: nat, n: Name)
    requires WellFormed(c) && Inv(c, s) && Enabled(c, s, Write(upto)) && n in c.names && n in s.records
        && Elsewhere(c, s, n)
    ensures Settled(c, s, AfterWrite(c, s, upto), n)
  {
    hide LayerOk;
    hide ReadsComplete;
    hide Document;
    NotYet(c, s, n);
    hide Inv;
  }

  lemma PatchSettles(c: Context, s: State, git: Git, n: Name)
    requires WellFormed(c) && Inv(c, s) && Enabled(c, s, Patch(git)) && n in c.names && n in s.records
        && Elsewhere(c, s, n)
    ensures Settled(c, s, AfterPatch(c, s, git), n)
  {
    hide LayerOk;
    hide ReadsComplete;
    hide Document;
    NotYet(c, s, n);
    hide Inv;
  }

  lemma SettledStep(c: Context, s: State, a: Act, n: Name)
    requires WellFormed(c) && Inv(c, s) && Enabled(c, s, a) && n in c.names && n in s.records && Elsewhere(c, s, n)
    ensures Settled(c, s, After(c, s, a), n)
  {
    hide ReadsComplete;
    hide Document;
    hide Inv;
    match a
    case Begin =>
    case Look(verdict) => LookSettles(c, s, verdict, n);
    case Write(upto) => WriteSettles(c, s, upto, n);
    case Patch(git) => PatchSettles(c, s, git, n);
    case Die => NotYet(c, s, n);
  }

  /** Once the program is done with a layer, for good or for bad, no later
      invocation touches its record or its tree; and if it was for bad, every
      one of them refuses. */
  lemma {:induction false} SettledForGood(c: Context, s: State, acts: seq<Act>, n: Name)
    requires WellFormed(c) && Inv(c, s) && n in c.names && n in s.records && Elsewhere(c, s, n)
    ensures var t := Run(c, s, acts);
            && n in t.records && t.records[n] == s.records[n] && Tree(t, n) == Tree(s, n)
            && (!Done(c, s, n) ==> !t.succeeded)
    decreases |acts|
  {
    hide Inv;
    hide Elsewhere;
    hide ReadsComplete;
    if acts == [] {
      NotYet(c, s, n);
    } else if Enabled(c, s, acts[0]) {
      StepKeepsInv(c, s, acts[0]);
      SettledStep(c, s, acts[0], n);
      SettledForGood(c, After(c, s, acts[0]), acts[1..], n);
    } else {
      SettledForGood(c, s, acts[1..], n);
    }
  }

  lemma NotYet(c: Context, s: State, n: Name)
    requires WellFormed(c) && Inv(c, s) && n in c.names
    ensures !Done(c, s, n) ==> !s.succeeded
  {
  }

  /** Exactly the layers the session is not done with stop a new invocation: it
      succeeds on complete layers alone, whatever else it is told. */
  lemma NewInvocation(c: Context, s: State, acts: seq<Act>, n: Name)
    requires WellFormed(c) && Inv(c, s) && s.pc.Idle? && n in c.names && n in s.records && !Done(c, s, n)
    ensures !Run(c, s, [Begin] + acts).succeeded && Tree(Run(c, s, [Begin] + acts), n) == Tree(s, n)
  {
    SettledForGood(c, s, [Begin] + acts, n);
  }

  // ---- the program ---------------------------------------------------------------

  lemma {:induction false} RunMore(c: Context, s: State, acts: seq<Act>, a: Act)
    requires WellFormed(c) && Enabled(c, Run(c, s, acts), a)
    ensures Run(c, s, acts + [a]) == After(c, Run(c, s, acts), a)
    decreases |acts|
  {
    if acts == [] {
      assert acts + [a] == [a] && [a][1..] == [];
    } else {
      assert (acts + [a])[0] == acts[0] && (acts + [a])[1..] == acts[1..] + [a];
      RunMore(c, if Enabled(c, s, acts[0]) then After(c, s, acts[0]) else s, acts[1..], a);
    }
  }

  lemma Begun(c: Context, s: State) returns (acts: seq<Act>)
    requires WellFormed(c) && s.pc.Idle?
    ensures Run(c, s, acts) == After(c, s, Begin)
  {
    acts := [Begin];
    assert acts[1..] == [];
  }

  datatype Outcome = Success(layers: map<Name, string>) | LayerUnknown(layer: Name) | NoWritableView(layer: Name)
                   | Incomplete(layer: Name) | DoesNotApply(layer: Name, patch: Name)

  /** What lets an undisturbed invocation past a layer: a tree it may write, and
      either a complete record or patches git takes. */
  predicate Passes(c: Context, records: map<Name, string>, n: Name, verdict: Name -> Verdict, git: (Name, Name) -> bool)
    requires n in c.digests && n in c.patches
  {
    && verdict(n) == Usable
    && if n in records then ReadsComplete(n, c.digests[n], records[n])
       else forall i :: 0 <= i < |c.patches[n]| ==> git(n, c.patches[n][i])
  }

  /** Why an invocation ended at a layer. */
  predicate Explains(c: Context, records: map<Name, string>, o: Outcome, verdict: Name -> Verdict,
                     git: (Name, Name) -> bool) {
    match o
    case Success(_) => true
    case LayerUnknown(n) => verdict(n) == Unknown
    case NoWritableView(n) => verdict(n) == NotWritable
    case Incomplete(n) =>
      verdict(n) == Usable && n in records && n in c.digests && !ReadsComplete(n, c.digests[n], records[n])
    case DoesNotApply(n, p) =>
      verdict(n) == Usable && n !in records && n in c.patches && p in c.patches[n] && !git(n, p)
  }

  function LayerOf(o: Outcome): Name
    requires !o.Success?
  {
    match o
    case LayerUnknown(n) => n
    case NoWritableView(n) => n
    case Incomplete(n) => n
    case DoesNotApply(n, _) => n
  }

  /** The records of the layers from `k` on are as they were. */
  ghost predicate Untouched(c: Context, k: nat, was: map<Name, string>, now: map<Name, string>) {
    forall i :: k <= i < |c.names| ==>
      && (c.names[i] in was <==> c.names[i] in now)
      && (c.names[i] in was ==> was[c.names[i]] == now[c.names[i]])
  }

  lemma SameQuestion(c: Context, k: nat, was: map<Name, string>, now: map<Name, string>, verdict: Name -> Verdict,
                     git: (Name, Name) -> bool)
    requires WellFormed(c) && k < |c.names| && Untouched(c, k, was, now)
    ensures Passes(c, now, c.names[k], verdict, git) <==> Passes(c, was, c.names[k], verdict, git)
    ensures forall o: Outcome :: !o.Success? && LayerOf(o) == c.names[k] ==>
              (Explains(c, now, o, verdict, git) <==> Explains(c, was, o, verdict, git))
  {
    hide ReadsComplete;
  }

  lemma StillUntouched(c: Context, k: nat, was: map<Name, string>, now: map<Name, string>, later: map<Name, string>)
    requires WellFormed(c) && k < |c.names| && Untouched(c, k, was, now)
    requires forall m :: m != c.names[k] ==> (m in later <==> m in now) && (m in later ==> later[m] == now[m])
    ensures Untouched(c, k + 1, was, later)
  {
  }

  /** The session's directory, as one invocation that lives to its end writes it. */
  class Session {
    var records: map<Name, string>
    var trees: map<Name, seq<Mark>>

    function At(pc: Pc, succeeded: bool): State
      reads this
    {
      State(records, trees, pc, succeeded)
    }

    constructor ()
      ensures At(Idle, false) == PRISTINE
    {
      records, trees := map[], map[];
    }

    /** _write_json, whole. */
    method WriteRecord(n: Name, digest: string, p: Phase)
      modifies this`records
      ensures records == old(records)[n := Document(n, digest, p)]
    {
      records := records[n := ""];
      records := records[n := Document(n, digest, p)];
    }

    /** Started, before the first patch. */
    method OpenLayer(c: Context, k: nat, ghost s: State, ghost before: seq<Act>) returns (ghost acts: seq<Act>)
      requires WellFormed(c) && k < |c.names| && c.names[k] !in records
      requires Run(c, s, before) == At(Looking(k), false)
      modifies this`records
      ensures Run(c, s, acts) == At(Patching(k, 0), false)
      ensures records == old(records)[c.names[k] := Text(c, c.names[k], Started)]
    {
      hide Document;
      hide Run;
      var name := c.names[k];
      ghost var text := Text(c, name, Started);
      Opened(c, name);
      RunMore(c, s, before, Look(Usable));
      acts := before + [Look(Usable)];
      assert text[..|text|] == text;
      RunMore(c, s, acts, Write(|text|));
      acts := acts + [Write(|text|)];
      WriteRecord(name, c.digests[name], Started);
    }

    /** Complete, only after the last patch. */
    method CloseLayer(c: Context, k: nat, ghost s: State, ghost before: seq<Act>) returns (ghost acts: seq<Act>)
      requires WellFormed(c) && k < |c.names|
      requires Run(c, s, before) == At(Patching(k, |c.patches[c.names[k]]|), false)
      modifies this`records
      ensures Run(c, s, acts) == At(Looking(k + 1), false)
      ensures records == old(records)[c.names[k] := Text(c, c.names[k], Complete)]
    {
      hide Document;
      hide Run;
      var name := c.names[k];
      ghost var text := Text(c, name, Complete);
      Opened(c, name);
      RunMore(c, s, before, Patch(Applies));
      acts := before + [Patch(Applies)];
      assert text[..|text|] == text;
      RunMore(c, s, acts, Write(|text|));
      acts := acts + [Write(|text|)];
      WriteRecord(name, c.digests[name], Complete);
    }

    method ApplyLayer(c: Context, k: nat, git: (Name, Name) -> bool, ghost s: State, ghost before: seq<Act>)
      returns (failed: bool, patch: Name, ghost acts: seq<Act>)
      requires WellFormed(c) && k < |c.names| && c.names[k] !in records
      requires Run(c, s, before) == At(Looking(k), false)
      modifies this
      ensures Run(c, s, acts) == At(if failed then Idle else Looking(k + 1), false)
      ensures failed <==> exists i :: 0 <= i < |c.patches[c.names[k]]| && !git(c.names[k], c.patches[c.names[k]][i])
      ensures failed ==> patch in c.patches[c.names[k]] && !git(c.names[k], patch)
      ensures forall m :: m != c.names[k] ==>
                (m in records <==> m in old(records)) && (m in records ==> records[m] == old(records)[m])
    {
      hide Document;
      hide Run;
      var name := c.names[k];
      patch := "";
      acts := OpenLayer(c, k, s, before);
      ghost var started := records;
      var patches := c.patches[name];
      for i := 0 to |patches|
        invariant Run(c, s, acts) == At(Patching(k, i), false) && records == started
        invariant forall j :: 0 <= j < i ==> git(name, patches[j])
      {
        ghost var done := if git(name, patches[i]) then Applies else Refuses;
        RunMore(c, s, acts, Patch(done));
        acts := acts + [Patch(done)];
        if !git(name, patches[i]) {
          return true, patches[i], acts;
        }
        trees := trees[name := (if name in trees then trees[name] else []) + [Applied(patches[i])]];
      }
      acts := CloseLayer(c, k, s, acts);
      failed := false;
    }

    /** One patched layer of the invocation; the outcome if it ends here. */
    method OneLayer(c: Context, k: nat, verdict: Name -> Verdict, git: (Name, Name) -> bool, ghost s: State,
                    ghost before: seq<Act>)
      returns (ended: Option<Outcome>, ghost acts: seq<Act>)
      requires WellFormed(c) && k < |c.names| && Run(c, s, before) == At(Looking(k), false)
      modifies this
      ensures Run(c, s, acts) == At(if ended.None? then Looking(k + 1) else Idle, false)
      ensures ended.None? <==> Passes(c, old(records), c.names[k], verdict, git)
      ensures ended.Some? ==> !ended.value.Success? && LayerOf(ended.value) == c.names[k]
      ensures ended.Some? ==> Explains(c, old(records), ended.value, verdict, git)
      ensures forall m :: m != c.names[k] ==>
                (m in records <==> m in old(records)) && (m in records ==> records[m] == old(records)[m])
    {
      hide ReadsComplete;
      hide Document;
      hide Run;
      var name := c.names[k];
      if verdict(name) == Usable && name !in records {
        var failed, patch;
        failed, patch, acts := ApplyLayer(c, k, git, s, before);
        return if failed then Some(DoesNotApply(name, patch)) else None, acts;
      }
      RunMore(c, s, before, Look(verdict(name)));
      acts := before + [Look(verdict(name))];
      if verdict(name) != Usable {
        return Some(if verdict(name) == Unknown then LayerUnknown(name) else NoWritableView(name)), acts;
      }
      return if ReadsComplete(name, c.digests[name], records[name]) then None else Some(Incomplete(name)), acts;
    }

    /** _apply_patches: every patched layer once per session, and every one of
        them in the block it returns. */
    method ApplyPatches(c: Context, verdict: Name -> Verdict, git: (Name, Name) -> bool)
      returns (outcome: Outcome, ghost acts: seq<Act>)
      requires WellFormed(c)
      modifies this
      ensures Run(c, old(At(Idle, false)), acts) == At(Idle, outcome.Success?)
      ensures outcome.Success? <==> forall n :: n in c.names ==> Passes(c, old(records), n, verdict, git)
      ensures outcome.Success? ==> outcome.layers == map n | n in c.names :: c.digests[n]
      ensures !outcome.Success? ==> LayerOf(outcome) in c.names && Explains(c, old(records), outcome, verdict, git)
    {
      hide ReadsComplete;
      hide Document;
      hide Run;
      hide Passes;
      hide Explains;
      ghost var s := At(Idle, false);
      ghost var was := records;
      acts := Begun(c, s);
      var layers := map[];
      for k := 0 to |c.names|
        invariant Run(c, s, acts) == At(Looking(k), false)
        invariant layers.Keys == (set i | 0 <= i < k :: c.names[i])
        invariant forall n :: n in layers ==> n in c.digests && layers[n] == c.digests[n]
        invariant forall i :: 0 <= i < k ==> Passes(c, was, c.names[i], verdict, git)
        invariant Untouched(c, k, was, records)
      {
        ghost var now := records;
        var ended;
        ended, acts := OneLayer(c, k, verdict, git, s, acts);
        SameQuestion(c, k, was, now, verdict, git);
        if ended.Some? {
          return ended.value, acts;
        }
        StillUntouched(c, k, was, now, records);
        layers := layers[c.names[k] := c.digests[c.names[k]]];
      }
      RunMore(c, s, acts, Look(Usable));
      acts := acts + [Look(Usable)];
      assert layers == map n | n in c.names :: c.digests[n];
      outcome := Success(layers);
    }
  }
}
