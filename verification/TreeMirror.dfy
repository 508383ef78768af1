/** A tree reproduced somewhere else (mcuhome/compiler/abi.py, _mirror_tree and
    the shutil.copytree of _patched_copy): the walk with its explicit stack. */
module TreeMirror {
  import opened FileSystem

  /** What is reproduced: `top`/`base` at `view`/`base`, except `skipped`, from
      the disk as it was `before`. */
  datatype Job = Job(before: Disk, top: Path, view: Path, base: Path, skipped: set<Path>, linkable: Path -> bool)

  function Rel(root: Path, p: Path): Path
    requires Under(root, p)
  {
    p[|root|..]
  }

  /** Neither tree contains the other. */
  predicate Apart(a: Path, b: Path) {
    !Under(a, b) && !Under(b, a)
  }

  lemma Comparable(a: Path, b: Path, p: Path)
    requires Under(a, p) && Under(b, p)
    ensures Under(a, b) || Under(b, a)
  {
    if |a| <= |b| {
      assert a == p[..|a|] == b[..|a|];
    } else {
      assert b == p[..|b|] == a[..|b|];
    }
  }

  lemma NoOverlap(a: Path, b: Path, p: Path)
    requires Apart(a, b) && Under(a, p)
    ensures !Under(b, p) && forall r :: !Under(p, At(b, r))
  {
    if Under(b, p) {
      Comparable(a, b, p);
    }
    forall r
      ensures !Under(p, At(b, r))
    {
      if Under(p, At(b, r)) {
        Comparable(a, b, At(b, r));
      }
    }
  }

  lemma AtRel(root: Path, r: Path)
    ensures Under(root, At(root, r)) && Rel(root, At(root, r)) == r
    ensures r != [] ==> At(root, r) != [] && Parent(At(root, r)) == At(root, Parent(r)) && Leaf(At(root, r)) == Leaf(r)
  {
  }

  ghost predicate Kept(j: Job, r: Path) {
    && Under(j.base, r)
    && At(j.top, r) in j.before.nodes
    && forall s :: s in j.skipped && Under(s, r) ==> |s| <= |j.base|
  }

  /** `b` on disk `d` stands for `a` as it was: a directory, the same link text,
      or a file with the same bytes - the same inode only where it was linked. */
  predicate Twin(before: Disk, a: Node, d: Disk, b: Node, linked: bool) {
    match a
    case Dir => b == Dir
    case Link(_) => b == a
    case File(ino) =>
      && b.File? && ino in before.bytes && b.ino in d.bytes && d.bytes[b.ino] == before.bytes[ino]
      && if linked then b == a else before.next <= b.ino < d.next
  }

  ghost predicate IsTwin(j: Job, d: Disk, r: Path)
    requires At(j.top, r) in j.before.nodes
  {
    && At(j.view, r) in d.nodes
    && Twin(j.before, j.before.nodes[At(j.top, r)], d, d.nodes[At(j.view, r)], j.linkable(At(j.top, r)))
  }

  /** Everything kept has its twin; what else is new is the way to the mirror. */
  ghost predicate Reproduced(j: Job, d: Disk) {
    && Grows(j.before, d)
    && (forall r :: Kept(j, r) ==> IsTwin(j, d, r))
    && forall p :: p in d.nodes && p !in j.before.nodes ==>
                     || (Under(p, At(j.view, j.base)) && d.nodes[p] == Dir)
                     || (Under(j.view, p) && Kept(j, Rel(j.view, p)))
  }

  // ---- the walk ------------------------------------------------------------

  datatype Frame = Frame(directory: Path, into: Path, relative: Path)

  predicate OnStack(stack: seq<Frame>, r: Path) {
    exists i :: 0 <= i < |stack| && stack[i].relative == r
  }

  /** `todo` is what is kept and not there yet. */
  ghost predicate Progress(j: Job, d: Disk, todo: set<Path>) {
    && Sound(d) && Grows(j.before, d)
    && (forall r :: r in todo ==> Kept(j, r) && r != j.base && At(j.view, r) !in d.nodes)
    && (forall r :: Kept(j, r) && r !in todo ==> IsTwin(j, d, r))
    && forall p :: p in d.nodes && p !in j.before.nodes ==>
                     || (Under(p, At(j.view, j.base)) && d.nodes[p] == Dir)
                     || (Under(j.view, p) && Kept(j, Rel(j.view, p)))
  }

  ghost predicate IsFrame(j: Job, todo: set<Path>, f: Frame) {
    && f.directory == At(j.top, f.relative) && f.into == At(j.view, f.relative)
    && Kept(j, f.relative) && j.before.nodes[f.directory] == Dir && f.relative !in todo
  }

  ghost predicate Frames(j: Job, todo: set<Path>, stack: seq<Frame>) {
    && (forall i :: 0 <= i < |stack| ==> IsFrame(j, todo, stack[i]))
    && forall i, k :: 0 <= i < k < |stack| ==> stack[i].relative != stack[k].relative
  }

  /** Nothing below a frame, or below something to do, is there yet. */
  ghost predicate Untouched(j: Job, todo: set<Path>, stack: seq<Frame>) {
    forall r :: Kept(j, r) && r != j.base && (OnStack(stack, Parent(r)) || Parent(r) in todo) ==> r in todo
  }

  ghost predicate Stacked(j: Job, todo: set<Path>, stack: seq<Frame>) {
    Frames(j, todo, stack) && Untouched(j, todo, stack)
  }

  /** Everything to do hangs below something to do, a frame, or an entry of the
      directory at hand. */
  ghost predicate Reachable(todo: set<Path>, stack: seq<Frame>, at: Path, names: set<Name>) {
    forall r :: r in todo ==>
      r != [] && (Parent(r) in todo || OnStack(stack, Parent(r)) || (Parent(r) == at && Leaf(r) in names))
  }

  lemma {:induction false} NothingLeft(j: Job, todo: set<Path>, r: Path)
    requires r in todo && Reachable(todo, [], [], {})
    ensures false
    decreases |r|
  {
    NothingLeft(j, todo, Parent(r));
  }

  // ---- what the steps of the walk keep -------------------------------------

  /** The entries of the directory at hand, none handled yet. */
  ghost predicate Left(j: Job, todo: set<Path>, at: Path, names: set<Name>) {
    forall n :: n in names ==> At(j.top, at + [n]) in j.before.nodes && (at + [n] in todo || at + [n] in j.skipped)
  }

  ghost predicate Ready(j: Job) {
    && Sound(j.before) && Apart(j.top, j.view)
    && (forall p :: p in j.before.nodes ==> !Under(At(j.view, j.base), p))
  }

  lemma ChildKept(j: Job, r: Path, name: Name)
    requires Kept(j, r) && At(j.top, r + [name]) in j.before.nodes
    ensures Kept(j, r + [name]) <==> r + [name] !in j.skipped
    ensures Parent(r + [name]) == r && r + [name] != j.base
  {
    var c := r + [name];
    forall s | s in j.skipped && Under(s, c) && s != c
      ensures |s| <= |j.base|
    {
      assert Under(s, r) by { assert s == c[..|s|] == r[..|s|]; }
    }
    assert Under(c, c);
  }

  lemma ParentKept(j: Job, r: Path)
    requires Ready(j) && Kept(j, r) && r != j.base
    ensures r != [] && Kept(j, Parent(r)) && IsDir(j.before.nodes, At(j.top, Parent(r)))
  {
    AtRel(j.top, r);
    assert Under(j.base, Parent(r));
  }

  lemma PopStack(stack: seq<Frame>)
    requires stack != []
    ensures forall r :: OnStack(stack, r) <==> OnStack(stack[..|stack| - 1], r) || r == stack[|stack| - 1].relative
  {
    PushStack(stack[..|stack| - 1], stack[|stack| - 1]);
    assert stack == stack[..|stack| - 1] + [stack[|stack| - 1]];
  }

  lemma PushStack(stack: seq<Frame>, f: Frame)
    ensures forall r :: OnStack(stack + [f], r) <==> OnStack(stack, r) || r == f.relative
  {
    var after := stack + [f];
    assert after[|stack|] == f;
    forall r | OnStack(stack, r)
      ensures OnStack(after, r)
    {
      var i :| 0 <= i < |stack| && stack[i].relative == r;
      assert after[i].relative == r;
    }
    forall r | OnStack(after, r)
      ensures OnStack(stack, r) || r == f.relative
    {
      var i :| 0 <= i < |after| && after[i].relative == r;
      assert i < |stack| ==> stack[i].relative == r;
    }
  }

  /** The whole tree but its root. */
  lemma All(j: Job) returns (todo: set<Path>)
    ensures forall r :: r in todo <==> Kept(j, r) && r != j.base
  {
    todo := set p | p in j.before.nodes && Under(j.top, p) && Kept(j, Rel(j.top, p)) && Rel(j.top, p) != j.base ::
      Rel(j.top, p);
    forall r | Kept(j, r) && r != j.base
      ensures r in todo
    {
      AtRel(j.top, r);
      assert Rel(j.top, At(j.top, r)) == r;
    }
  }

  /** The way to the mirror is made and the whole tree is still to do. */
  lemma Begin(j: Job, d: Disk) returns (todo: set<Path>)
    requires Ready(j) && Sound(d) && Grows(j.before, d) && IsDir(j.before.nodes, At(j.top, j.base))
    requires forall q :: q in d.nodes <==> q in j.before.nodes || Under(q, At(j.view, j.base))
    requires forall q :: Under(q, At(j.view, j.base)) ==> d.nodes[q] == Dir
    ensures var stack := [Frame(At(j.top, j.base), At(j.view, j.base), j.base)];
            Progress(j, d, todo) && Stacked(j, todo, stack) && Reachable(todo, stack, [], {})
  {
    hide Rooted;
    todo := All(j);
    var f := Frame(At(j.top, j.base), At(j.view, j.base), j.base);
    PushStack([], f);
    assert [] + [f] == [f];
    BeginStack(j, todo, f);
    BeginDisk(j, d, todo);
  }

  lemma BeginStack(j: Job, todo: set<Path>, f: Frame)
    requires Ready(j) && IsDir(j.before.nodes, At(j.top, j.base))
    requires forall r :: r in todo <==> Kept(j, r) && r != j.base
    requires f == Frame(At(j.top, j.base), At(j.view, j.base), j.base)
    requires forall r :: OnStack([f], r) <==> r == f.relative
    ensures Stacked(j, todo, [f]) && Reachable(todo, [f], [], {})
  {
    hide OnStack;
    forall r | r in todo
      ensures r != [] && (Parent(r) in todo || OnStack([f], Parent(r)))
    {
      ParentKept(j, r);
    }
  }

  lemma BeginDisk(j: Job, d: Disk, todo: set<Path>)
    requires Ready(j) && Sound(d) && Grows(j.before, d) && IsDir(j.before.nodes, At(j.top, j.base))
    requires forall q :: q in d.nodes <==> q in j.before.nodes || Under(q, At(j.view, j.base))
    requires forall q :: Under(q, At(j.view, j.base)) ==> d.nodes[q] == Dir
    requires forall r :: r in todo <==> Kept(j, r) && r != j.base
    ensures Progress(j, d, todo)
  {
    hide Rooted;
    forall r | r in todo
      ensures At(j.view, r) !in d.nodes
    {
      assert Under(At(j.view, j.base), At(j.view, r));
      assert |At(j.view, r)| > |At(j.view, j.base)|;
    }
    assert Under(At(j.view, j.base), At(j.view, j.base));
  }

  lemma Popped(j: Job, d: Disk, todo: set<Path>, stack: seq<Frame>, names: set<Name>)
    requires Ready(j) && stack != [] && Progress(j, d, todo) && Stacked(j, todo, stack)
        && Reachable(todo, stack, [], {})
    requires forall n :: n in names <==> stack[|stack| - 1].directory + [n] in d.nodes
    ensures var f, rest := stack[|stack| - 1], stack[..|stack| - 1];
            && Stacked(j, todo, rest) && Reachable(todo, rest, f.relative, names)
            && IsFrame(j, todo, f) && !OnStack(rest, f.relative) && Left(j, todo, f.relative, names)
  {
    hide Rooted;
    var f, rest := stack[|stack| - 1], stack[..|stack| - 1];
    assert !OnStack(rest, f.relative);
    PopStack(stack);
    hide OnStack;
    assert IsFrame(j, todo, f);
    assert Frames(j, todo, rest);
    hide Frames;
    InTheListing(j, d, todo, f, names);
    forall n | n in names
      ensures At(j.top, f.relative + [n]) in j.before.nodes
          && (f.relative + [n] in todo || f.relative + [n] in j.skipped)
    {
      Listed(j, d, todo, f, n);
      ChildKept(j, f.relative, n);
    }
    hide Progress;
    hide IsFrame;
  }

  lemma InTheListing(j: Job, d: Disk, todo: set<Path>, f: Frame, names: set<Name>)
    requires Progress(j, d, todo) && IsFrame(j, todo, f)
    requires forall n :: n in names <==> f.directory + [n] in d.nodes
    ensures forall r :: r in todo && r != [] && Parent(r) == f.relative ==> Leaf(r) in names
  {
    hide Rooted;
    forall r | r in todo && r != [] && Parent(r) == f.relative
      ensures Leaf(r) in names
    {
      AtRel(j.top, r);
      assert f.directory + [Leaf(r)] == At(j.top, r);
    }
  }

  /** The original tree is where it was: the mirror grows elsewhere. */
  lemma Listed(j: Job, d: Disk, todo: set<Path>, f: Frame, n: Name)
    requires Ready(j) && Progress(j, d, todo) && IsFrame(j, todo, f) && f.directory + [n] in d.nodes
    ensures At(j.top, f.relative + [n]) in j.before.nodes
  {
    hide Rooted;
    var p := f.directory + [n];
    assert p == At(j.top, f.relative + [n]);
    assert Under(j.top, p);
    NoOverlap(j.top, j.view, p);
  }

  lemma Skip(j: Job, todo: set<Path>, stack: seq<Frame>, at: Path, names: set<Name>, name: Name)
    requires Progress0(j, todo) && Kept(j, at) && name in names && at + [name] in j.skipped && |at| >= |j.base|
    requires Reachable(todo, stack, at, names) && Left(j, todo, at, names)
    ensures Reachable(todo, stack, at, names - {name}) && Left(j, todo, at, names - {name})
  {
    assert at + [name] !in todo by {
      if at + [name] in todo {
        ChildKept(j, at, name);
      }
    }
    forall r | r in todo && Parent(r) == at
      ensures Leaf(r) != name
    {
      assert r == at + [Leaf(r)];
    }
  }

  ghost predicate Progress0(j: Job, todo: set<Path>) {
    forall r :: r in todo ==> Kept(j, r) && r != []
  }

  /** The twin of `child` is there now. */
  lemma Entered(j: Job, d0: Disk, d1: Disk, todo: set<Path>, child: Path)
    requires Ready(j) && Progress(j, d0, todo) && child in todo && Sound(d1) && Grows(d0, d1)
    requires var p := At(j.view, child);
             && p in d1.nodes && d1.nodes == d0.nodes[p := d1.nodes[p]]
             && Twin(d0, j.before.nodes[At(j.top, child)], d1, d1.nodes[p], j.linkable(At(j.top, child)))
    ensures Progress(j, d1, todo - {child})
  {
    hide Rooted;
    var p := At(j.view, child);
    forall r | r in todo && r != child
      ensures At(j.view, r) !in d1.nodes
    {
      AtRel(j.view, r);
      AtRel(j.view, child);
    }
    forall r | Kept(j, r) && r !in todo - {child}
      ensures IsTwin(j, d1, r)
    {
      if r != child {
        assert IsTwin(j, d0, r);
      }
    }
    AtRel(j.view, child);
  }

  lemma Push(j: Job, todo: set<Path>, stack: seq<Frame>, at: Path, names: set<Name>, name: Name, directory: bool)
    requires Ready(j) && Progress0(j, todo) && Kept(j, at) && at !in todo && name in names && at + [name] in todo
    requires Stacked(j, todo, stack) && Reachable(todo, stack, at, names) && Left(j, todo, at, names)
        && !OnStack(stack, at)
    requires directory == (j.before.nodes[At(j.top, at + [name])] == Dir)
    ensures var child := at + [name];
            var after := if directory then stack + [Frame(At(j.top, child), At(j.view, child), child)] else stack;
            && Stacked(j, todo - {child}, after) && Reachable(todo - {child}, after, at, names - {name})
            && Left(j, todo - {child}, at, names - {name}) && !OnStack(after, at)
  {
    var child := at + [name];
    var frame := Frame(At(j.top, child), At(j.view, child), child);
    var after := if directory then stack + [frame] else stack;
    ChildKept(j, at, name);
    PushStack(stack, frame);
    PushFrames(j, todo, stack, frame);
    assert forall n :: n in names - {name} ==> at + [n] != child by {
      assert forall n :: (at + [n])[|at|] == n;
    }
    hide OnStack;
    hide Frames;
    PushReachable(j, todo, stack, after, at, names, name, directory);
    PushUntouched(j, todo, stack, after, at, name, directory);
  }

  lemma PushFrames(j: Job, todo: set<Path>, stack: seq<Frame>, frame: Frame)
    requires Frames(j, todo, stack) && frame.relative in todo && Kept(j, frame.relative)
    requires frame.directory == At(j.top, frame.relative) && frame.into == At(j.view, frame.relative)
    ensures Frames(j, todo - {frame.relative}, stack)
    ensures j.before.nodes[frame.directory] == Dir ==> Frames(j, todo - {frame.relative}, stack + [frame])
  {
    forall i | 0 <= i < |stack|
      ensures stack[i].relative != frame.relative
    {
      assert IsFrame(j, todo, stack[i]);
    }
  }

  lemma PushReachable(j: Job, todo: set<Path>, stack: seq<Frame>, after: seq<Frame>, at: Path, names: set<Name>,
                      name: Name,
                      directory: bool)
    requires Ready(j) && Progress0(j, todo) && Reachable(todo, stack, at, names)
    requires at + [name] in todo && directory == (j.before.nodes[At(j.top, at + [name])] == Dir)
    requires forall r :: OnStack(after, r) <==> OnStack(stack, r) || (directory && r == at + [name])
    ensures Reachable(todo - {at + [name]}, after, at, names - {name})
  {
    hide Rooted;
    hide OnStack;
    var child := at + [name];
    assert Under(j.base, child);
    forall r | r in todo && r != child
      ensures r != []
      ensures Parent(r) in todo - {child} || OnStack(after, Parent(r)) || (Parent(r) == at && Leaf(r) in names - {name})
    {
      if Parent(r) == child {
        ParentKept(j, r);
      } else if Parent(r) == at {
        assert r == at + [Leaf(r)];
      }
    }
  }

  lemma PushUntouched(j: Job, todo: set<Path>, stack: seq<Frame>, after: seq<Frame>, at: Path, name: Name,
                      directory: bool)
    requires Ready(j) && Untouched(j, todo, stack) && Kept(j, at) && at !in todo && !OnStack(stack, at)
    requires at + [name] in todo && Progress0(j, todo)
    requires forall r :: OnStack(after, r) <==> OnStack(stack, r) || (directory && r == at + [name])
    ensures Untouched(j, todo - {at + [name]}, after)
  {
    hide Rooted;
    hide OnStack;
    var child := at + [name];
    assert Parent(child) == at && |child| == |at| + 1;
    forall r | Kept(j, r) && r != j.base && (OnStack(after, Parent(r)) || Parent(r) in todo - {child})
      ensures r in todo - {child}
    {
      ParentKept(j, r);
    }
  }

  /** The entry at hand can be reproduced: it is there and its twin is not. */
  lemma EntryReady(j: Job, d: Disk, todo: set<Path>, f: Frame, names: set<Name>, name: Name)
    requires Progress(j, d, todo) && IsFrame(j, todo, f) && Left(j, todo, f.relative, names) && name in names
    requires f.relative + [name] !in j.skipped
    ensures var source, destination := f.directory + [name], f.into + [name];
            && source == At(j.top, f.relative + [name]) && destination == At(j.view, f.relative + [name])
            && source in j.before.nodes && source in d.nodes && d.nodes[source] == j.before.nodes[source]
            && IsDir(d.nodes, Parent(destination)) && destination !in d.nodes && Sound(d)
            && f.relative + [name] in todo
  {
    hide Rooted;
    assert IsTwin(j, d, f.relative);
    assert Parent(f.into + [name]) == f.into;
  }

  lemma Handles(j: Job, d: Disk, todo: set<Path>, stack: seq<Frame>, f: Frame, names: set<Name>)
    requires Progress(j, d, todo) && IsFrame(j, todo, f) && Reachable(todo, stack, f.relative, names)
    ensures Progress0(j, todo) && Kept(j, f.relative) && |f.relative| >= |j.base| && f.relative !in todo
  {
    hide Rooted;
  }

  lemma AllHandled(todo: set<Path>, stack: seq<Frame>, at: Path)
    requires Reachable(todo, stack, at, {})
    ensures Reachable(todo, stack, [], {})
  {
  }

  lemma Done(j: Job, d: Disk, todo: set<Path>)
    requires Progress(j, d, todo) && Reachable(todo, [], [], {})
    ensures Reproduced(j, d) && Sound(d) && Grows(j.before, d)
  {
    if r :| r in todo {
      NothingLeft(j, todo, r);
    }
  }

  /** One directory entry reproduced: a directory, the same link, or the file. */
  method Entry(tree: Tree, source: Path, destination: Path, linkable: Path -> bool) returns (directory: bool)
    requires Sound(tree.Now()) && source in tree.nodes
    requires destination != [] && IsDir(tree.nodes, Parent(destination)) && destination !in tree.nodes
    modifies tree
    ensures Sound(tree.Now()) && Grows(old(tree.Now()), tree.Now())
    ensures destination in tree.nodes && tree.nodes == old(tree.nodes)[destination := tree.nodes[destination]]
    ensures Twin(old(tree.Now()), old(tree.nodes)[source], tree.Now(), tree.nodes[destination], linkable(source))
    ensures directory == (old(tree.nodes)[source] == Dir)
  {
    directory := false;
    match tree.nodes[source]
    case Link(_) =>
      tree.Symlink(destination, tree.nodes[source]);
    case Dir =>
      tree.Mkdir(destination);
      directory := true;
    case File(_) =>
      tree.LinkOrCopy(source, destination, linkable(source));
  }

  /** The loop over one directory's entries. */
  method MirrorDirectory(tree: Tree, f: Frame, pending: seq<Frame>, skipped: set<Path>, linkable: Path -> bool,
                         ghost j: Job, ghost before: set<Path>)
    returns (stack: seq<Frame>, ghost todo: set<Path>)
    requires Ready(j) && skipped == j.skipped && linkable == j.linkable
    requires Progress(j, tree.Now(), before) && Stacked(j, before, pending + [f])
        && Reachable(before, pending + [f], [], {})
    modifies tree
    ensures Progress(j, tree.Now(), todo) && Stacked(j, todo, stack) && Reachable(todo, stack, [], {})
    ensures |todo| + |stack| < |before| + |pending| + 1
  {
    hide Sound;
    hide Grows;
    hide Twin;
    hide Kept;
    hide OnStack;
    hide IsFrame;
    hide Left;
    hide Progress;
    hide Progress0;
    hide Stacked;
    hide Reachable;
    var names := Listing(tree.nodes, f.directory);
    stack, todo := pending, before;
    Popped(j, tree.Now(), todo, pending + [f], names);
    assert (pending + [f])[..|pending|] == pending;
    while names != {}
      invariant Progress(j, tree.Now(), todo) && Stacked(j, todo, stack) && Reachable(todo, stack, f.relative, names)
      invariant IsFrame(j, todo, f) && !OnStack(stack, f.relative) && Left(j, todo, f.relative, names)
      invariant |todo| + |stack| <= |before| + |pending|
      decreases |names|
    {
      var name :| name in names;
      var child := f.relative + [name];
      Handles(j, tree.Now(), todo, stack, f, names);
      if child in skipped {
        Skip(j, todo, stack, f.relative, names, name);
      } else {
        ghost var d := tree.Now();
        EntryReady(j, d, todo, f, names, name);
        var directory := Entry(tree, f.directory + [name], f.into + [name], linkable);
        Entered(j, d, tree.Now(), todo, child);
        Push(j, todo, stack, f.relative, names, name, directory);
        StillFrame(j, todo, f, child);
        if directory {
          stack := stack + [Frame(f.directory + [name], f.into + [name], child)];
        }
        todo := todo - {child};
      }
      names := names - {name};
    }
    AllHandled(todo, stack, f.relative);
  }

  lemma StillFrame(j: Job, todo: set<Path>, f: Frame, child: Path)
    requires IsFrame(j, todo, f)
    ensures IsFrame(j, todo - {child}, f)
  {
  }

  /** _mirror_tree: the explicit stack of directories. */
  method MirrorTree(tree: Tree, top: Path, view: Path, base: Path, skipped: set<Path>, linkable: Path -> bool,
                    ghost j: Job)
    returns (ok: bool)
    requires j == Job(tree.Now(), top, view, base, skipped, linkable) && Ready(j)
    requires forall q :: Under(q, At(view, base)) && q in tree.nodes ==> tree.nodes[q] == Dir
    modifies tree
    ensures Sound(tree.Now()) && Grows(old(tree.Now()), tree.Now())
    ensures ok == IsDir(old(tree.nodes), At(top, base))
    ensures ok ==> Reproduced(j, tree.Now())
  {
    hide Progress;
    hide Stacked;
    hide Reachable;
    hide Reproduced;
    tree.MkdirParents(At(view, base));
    NoOverlap(top, view, At(top, base));
    if At(top, base) !in tree.nodes || tree.nodes[At(top, base)] != Dir {
      return false;
    }
    ghost var todo := Begin(j, tree.Now());
    var stack := [Frame(At(top, base), At(view, base), base)];
    while stack != []
      invariant Progress(j, tree.Now(), todo) && Stacked(j, todo, stack) && Reachable(todo, stack, [], {})
      decreases |todo| + |stack|
    {
      var f := stack[|stack| - 1];
      assert stack == stack[..|stack| - 1] + [f];
      stack, todo := MirrorDirectory(tree, f, stack[..|stack| - 1], skipped, linkable, j, todo);
    }
    Done(j, tree.Now(), todo);
    return true;
  }
}
