/** The view of a workspace a build step works in (mcuhome/compiler/abi.py,
    _workspace_view and _viewed). */
module WorkspaceView {
  import opened FileSystem
  import opened TreeMirror

  /** What a view is made from: the disk as it was, the workspace at `top`, and
      which of its trees are substituted, mirrored and copied. */
  datatype Plan = Plan(before: Disk, top: Path, view: Path, substitutes: map<Path, Path>,
                       shadowed: set<Path>, copied: set<Path>, linkable: Path -> bool)
  {
    function Layers(): set<Path> { shadowed + copied }

    function Roots(): set<Path> { substitutes.Keys + shadowed + copied }

    /** The directories on the way to a root, and the workspace itself. */
    function Above(): set<Path> {
      {[]} + set m, k | m in Roots() && 0 <= k < |m| :: m[..k]
    }

    /** An entry of such a directory that is neither on the way to a root nor one. */
    predicate Plain(r: Path) {
      r != [] && Parent(r) in Above() && r !in Above() && r !in Roots()
    }

    predicate There(r: Path) { At(top, r) in before.nodes }

    predicate IsThereDir(r: Path) { IsDir(before.nodes, At(top, r)) }
  }

  /** No root inside another, no view inside the workspace or around it, and
      nothing at the place of the view yet. */
  ghost predicate Geometry(p: Plan) {
    && Sound(p.before) && Apart(p.top, p.view)
    && p.view != [] && IsDir(p.before.nodes, Parent(p.view))
    && (forall q :: q in p.before.nodes ==> !Under(p.view, q))
    && (forall a, b :: a in p.Roots() && b in p.Roots() && Under(a, b) ==> a == b)
    && [] !in p.Roots()
    && p.substitutes.Keys !! p.shadowed !! p.copied
  }

  // ---- what a half-built view holds ----------------------------------------

  ghost predicate Stands(p: Plan, d: Disk, r: Path, linked: bool)
    requires p.There(r)
  {
    && At(p.view, r) in d.nodes
    && Twin(p.before, p.before.nodes[At(p.top, r)], d, d.nodes[At(p.view, r)], linked && p.linkable(At(p.top, r)))
  }

  ghost predicate Complete(p: Plan, d: Disk, m: Path) {
    forall r :: Under(m, r) && p.There(r) ==> Stands(p, d, r, m in p.shadowed)
  }

  predicate LinksTo(p: Plan, d: Disk, r: Path, target: Path) {
    At(p.view, r) in d.nodes && d.nodes[At(p.view, r)] == Absolute(target)
  }

  predicate InLayer(p: Plan, r: Path, layers: set<Path>) {
    exists m :: m in layers && Under(m, r)
  }

  /** What may be at `r`: a directory on the way, a linked entry, a layer's own
      tree, a substitute. */
  ghost predicate Expected(p: Plan, linked: set<Path>, roots: set<Path>, r: Path) {
    || r in p.Above() || r in linked || (r in roots && r in p.substitutes)
    || (p.There(r) && InLayer(p, r, roots * p.Layers()))
  }

  ghost predicate Nothing(p: Plan, d: Disk, linked: set<Path>, roots: set<Path>) {
    forall q :: q in d.nodes && q !in p.before.nodes ==>
      && Under(p.view, q) && Expected(p, linked, roots, Rel(p.view, q))
      && (Rel(p.view, q) in p.Above() ==> d.nodes[q] == Dir)
  }

  ghost predicate Present(p: Plan, d: Disk, dirs: set<Path>, linked: set<Path>, roots: set<Path>) {
    && (forall a :: a in dirs ==> IsDir(d.nodes, At(p.view, a)))
    && (forall c :: c in linked ==> p.Plain(c) && p.There(c) && LinksTo(p, d, c, At(p.top, c)))
    && (forall m :: m in roots && m in p.Layers() ==> Complete(p, d, m))
    && (forall s :: s in roots && s in p.substitutes ==> LinksTo(p, d, s, p.substitutes[s]))
  }

  /** `dirs`, `linked` and `roots` are in the view, and nothing else is new. */
  ghost predicate Built(p: Plan, d: Disk, dirs: set<Path>, linked: set<Path>, roots: set<Path>) {
    && Sound(d) && Grows(p.before, d) && roots <= p.Roots()
    && Present(p, d, dirs, linked, roots) && Nothing(p, d, linked, roots)
  }

  // ---- where things are ------------------------------------------------------

  lemma InAbove(p: Plan, m: Path, k: nat)
    requires m in p.Roots() && k < |m|
    ensures m[..k] in p.Above()
  {
  }

  lemma AboveIs(p: Plan, r: Path)
    requires r in p.Above()
    ensures r == [] || exists m :: m in p.Roots() && Under(r, m) && r != m
  {
    if r != [] {
      var m, k :| m in p.Roots() && 0 <= k < |m| && r == m[..k];
    }
  }

  lemma PrefixAbove(p: Plan, r: Path, q: Path)
    requires r in p.Above() + p.Roots() && Under(q, r) && (q == r ==> r in p.Above())
    ensures q in p.Above()
  {
    assert q == r[..|q|];
    if r in p.Roots() && |q| < |r| {
      InAbove(p, r, |q|);
    } else if r != [] && r in p.Above() {
      var m, k :| m in p.Roots() && 0 <= k < |m| && r == m[..k];
      assert q == m[..|q|];
      InAbove(p, m, |q|);
    }
  }

  /** Nothing on the way to a root, no plain entry and no other root is inside a root. */
  lemma InsideRoot(p: Plan, m: Path, r: Path)
    requires Geometry(p) && m in p.Roots() && Under(m, r)
    ensures r !in p.Above() && !p.Plain(r)
    ensures forall s :: s in p.Roots() && Under(s, r) ==> s == m
  {
    NotAbove(p, m, r);
    assert |m| == |r| ==> m == r;
    if p.Plain(r) {
      if |m| < |r| {
        assert m == Parent(r)[..|m|];
        NotAbove(p, m, Parent(r));
      }
    }
    forall s | s in p.Roots() && Under(s, r)
      ensures s == m
    {
      Comparable(s, m, r);
    }
  }

  lemma UnderUnder(a: Path, b: Path, c: Path)
    requires Under(a, b) && Under(b, c)
    ensures Under(a, c)
  {
  }

  lemma NotAbove(p: Plan, m: Path, r: Path)
    requires Geometry(p) && m in p.Roots() && Under(m, r)
    ensures r !in p.Above()
  {
    if r in p.Above() {
      AboveIs(p, r);
      if s :| s in p.Roots() && Under(r, s) && r != s {
        UnderUnder(m, r, s);
      }
    }
  }

  /** A root not yet in the view has nothing of it there. */
  lemma RootIsFree(p: Plan, d: Disk, dirs: set<Path>, linked: set<Path>, roots: set<Path>, m: Path)
    requires Geometry(p) && Built(p, d, dirs, linked, roots) && m in p.Roots() && m !in roots
    ensures forall q :: q in d.nodes ==> !Under(At(p.view, m), q)
  {
    hide Sound;
    forall q | q in d.nodes
      ensures !Under(At(p.view, m), q)
    {
      if Under(At(p.view, m), q) {
        assert Under(p.view, q) && Under(m, Rel(p.view, q));
        InsideRoot(p, m, Rel(p.view, q));
      }
    }
  }

  /** Only directories are in the way of a mkdir for `r`. */
  lemma WayIsClear(p: Plan, d: Disk, dirs: set<Path>, linked: set<Path>, roots: set<Path>, r: Path)
    requires Geometry(p) && Built(p, d, dirs, linked, roots)
    requires r in p.Above() || (r in p.Roots() && r !in roots)
    ensures forall q :: Under(q, At(p.view, r)) && q in d.nodes ==> d.nodes[q] == Dir
    ensures forall q :: Under(q, At(p.view, r)) ==>
              q in p.before.nodes || (Under(p.view, q) && Under(Rel(p.view, q), r))
  {
    if r !in p.Above() {
      RootIsFree(p, d, dirs, linked, roots, r);
    }
    forall q | Under(q, At(p.view, r))
      ensures q in d.nodes ==> d.nodes[q] == Dir
      ensures q in p.before.nodes || (Under(p.view, q) && Under(Rel(p.view, q), r))
    {
      OnTheWay(p, q, r);
      if Under(p.view, q) && Rel(p.view, q) != r {
        PrefixAbove(p, r, Rel(p.view, q));
      } else if Under(p.view, q) {
        assert q == At(p.view, r);
      }
    }
  }

  lemma OnTheWay(p: Plan, q: Path, r: Path)
    requires Geometry(p) && Under(q, At(p.view, r))
    ensures if Under(p.view, q) then Under(Rel(p.view, q), r) && q !in p.before.nodes else IsDir(p.before.nodes, q)
  {
    Comparable(q, p.view, At(p.view, r));
    if Under(p.view, q) {
      assert Rel(p.view, q) == r[..|Rel(p.view, q)|];
    } else {
      var parent := Parent(p.view);
      assert q == p.view[..|q|] == parent[..|q|];
      if |q| < |parent| {
        AncestorIsDir(p.before.nodes, parent, |q|);
      }
    }
  }

  // ---- the four steps ----------------------------------------------------------

  lemma DirMade(p: Plan, d0: Disk, d1: Disk, dirs: set<Path>, linked: set<Path>, roots: set<Path>, r: Path)
    requires Geometry(p) && Built(p, d0, dirs, linked, roots) && r in p.Above()
    requires Sound(d1) && Grows(d0, d1) && d1.bytes == d0.bytes && d1.next == d0.next
    requires forall q :: q in d1.nodes <==> q in d0.nodes || Under(q, At(p.view, r))
    requires forall q :: Under(q, At(p.view, r)) ==> d1.nodes[q] == Dir
    ensures Built(p, d1, dirs + {r}, linked, roots)
  {
    hide Sound;
    WayIsClear(p, d0, dirs, linked, roots, r);
    StillPresent(p, d0, d1, dirs, linked, roots);
    assert Under(At(p.view, r), At(p.view, r));
    forall q | q in d1.nodes && q !in p.before.nodes
      ensures Under(p.view, q) && Expected(p, linked, roots, Rel(p.view, q))
      ensures Rel(p.view, q) in p.Above() ==> d1.nodes[q] == Dir
    {
      if q !in d0.nodes {
        PrefixAbove(p, r, Rel(p.view, q));
      }
    }
  }

  /** What is there stays, whatever is added. */
  lemma StillPresent(p: Plan, d0: Disk, d1: Disk, dirs: set<Path>, linked: set<Path>, roots: set<Path>)
    requires Sound(p.before) && Grows(p.before, d0) && Grows(d0, d1) && Sound(d0)
    requires Present(p, d0, dirs, linked, roots)
    ensures Present(p, d1, dirs, linked, roots) && Grows(p.before, d1)
  {
    hide Rooted;
    forall m | m in roots && m in p.Layers()
      ensures Complete(p, d1, m)
    {
      assert Complete(p, d0, m);
      forall r | Under(m, r) && p.There(r)
        ensures Stands(p, d1, r, m in p.shadowed)
      {
        assert Stands(p, d0, r, m in p.shadowed);
      }
    }
  }

  lemma EntryIsFree(p: Plan, d: Disk, dirs: set<Path>, linked: set<Path>, roots: set<Path>, c: Path)
    requires Geometry(p) && Built(p, d, dirs, linked, roots) && p.Plain(c) && c !in linked
    ensures At(p.view, c) !in d.nodes
  {
    hide Sound;
    var q := At(p.view, c);
    AtRel(p.view, c);
    if q in d.nodes {
      assert Expected(p, linked, roots, c);
      var m :| m in roots * p.Layers() && Under(m, c);
      InsideRoot(p, m, c);
    }
  }

  lemma EntryLinked(p: Plan, d0: Disk, d1: Disk, dirs: set<Path>, linked: set<Path>, roots: set<Path>, c: Path)
    requires Geometry(p) && Built(p, d0, dirs, linked, roots) && p.Plain(c) && p.There(c)
    requires Sound(d1) && Grows(d0, d1) && d1.nodes == d0.nodes[At(p.view, c) := Absolute(At(p.top, c))]
    ensures Built(p, d1, dirs, linked + {c}, roots)
  {
    hide Sound;
    StillPresent(p, d0, d1, dirs, linked, roots);
    AtRel(p.view, c);
    forall q | q in d1.nodes && q !in p.before.nodes
      ensures Under(p.view, q) && Expected(p, linked + {c}, roots, Rel(p.view, q))
      ensures Rel(p.view, q) in p.Above() ==> d1.nodes[q] == Dir
    {
      if q in d0.nodes {
        assert Expected(p, linked, roots, Rel(p.view, q));
      }
    }
  }

  /** The mirror of one layer, from the disk as it is now, is the twin of the
      layer as it was. */
  lemma LayerMade(p: Plan, d0: Disk, d1: Disk, dirs: set<Path>, linked: set<Path>, roots: set<Path>, m: Path, j: Job)
    requires Geometry(p) && Built(p, d0, dirs, linked, roots) && m in p.Layers() && m !in roots
    requires j.before == d0 && j.top == p.top && j.view == p.view && j.base == m
    requires j.skipped <= p.Roots() - {m}
    requires forall q :: j.linkable(q) == (m in p.shadowed && p.linkable(q))
    requires Sound(d1) && Reproduced(j, d1) && p.IsThereDir(m)
    ensures Built(p, d1, dirs, linked, roots + {m})
  {
    hide Rooted;
    WayIsClear(p, d0, dirs, linked, roots, m);
    StillPresent(p, d0, d1, dirs, linked, roots);
    LayerComplete(p, d0, d1, m, j);
    LayerExpected(p, d0, d1, dirs, linked, roots, m, j);
  }

  lemma LayerKept(p: Plan, d0: Disk, m: Path, j: Job, r: Path)
    requires Geometry(p) && Grows(p.before, d0) && m in p.Roots()
    requires forall q :: q in d0.nodes && q !in p.before.nodes ==> Under(p.view, q)
    requires j.before == d0 && j.top == p.top && j.base == m && j.skipped <= p.Roots() - {m} && Under(m, r)
    ensures Kept(j, r) <==> p.There(r)
  {
    hide Rooted;
    InsideRoot(p, m, r);
    NoOverlap(p.top, p.view, At(p.top, r));
  }

  lemma LayerComplete(p: Plan, d0: Disk, d1: Disk, m: Path, j: Job)
    requires Geometry(p) && Sound(d0) && Grows(p.before, d0) && m in p.Layers()
    requires forall q :: q in d0.nodes && q !in p.before.nodes ==> Under(p.view, q)
    requires j.before == d0 && j.top == p.top && j.view == p.view && j.base == m && j.skipped <= p.Roots() - {m}
    requires forall q :: j.linkable(q) == (m in p.shadowed && p.linkable(q))
    requires Reproduced(j, d1)
    ensures Complete(p, d1, m)
  {
    hide Rooted;
    forall r | Under(m, r) && p.There(r)
      ensures Stands(p, d1, r, m in p.shadowed)
    {
      LayerKept(p, d0, m, j, r);
      assert IsTwin(j, d1, r);
    }
  }

  lemma LayerExpected(p: Plan, d0: Disk, d1: Disk, dirs: set<Path>, linked: set<Path>, roots: set<Path>, m: Path,
                      j: Job)
    requires Geometry(p) && Built(p, d0, dirs, linked, roots) && m in p.Layers() && m !in roots
    requires j.before == d0 && j.top == p.top && j.view == p.view && j.base == m && j.skipped <= p.Roots() - {m}
    requires Reproduced(j, d1)
    requires forall q :: Under(q, At(p.view, m)) ==>
               q in p.before.nodes || (Under(p.view, q) && Under(Rel(p.view, q), m))
    requires p.There(m)
    ensures Nothing(p, d1, linked, roots + {m})
  {
    hide Sound;
    forall q | q in d1.nodes && q !in p.before.nodes
      ensures Under(p.view, q) && Expected(p, linked, roots + {m}, Rel(p.view, q))
      ensures Rel(p.view, q) in p.Above() ==> d1.nodes[q] == Dir
    {
      if q in d0.nodes {
        MoreExpected(p, linked, roots, m, Rel(p.view, q));
      } else if Under(q, At(p.view, m)) && d1.nodes[q] == Dir {
        if Rel(p.view, q) == m {
          assert m in (roots + {m}) * p.Layers();
        } else {
          PrefixAbove(p, m, Rel(p.view, q));
        }
      } else {
        var r := Rel(p.view, q);
        LayerKept(p, d0, m, j, r);
        InsideRoot(p, m, r);
        assert m in (roots + {m}) * p.Layers();
      }
    }
  }

  lemma MoreExpected(p: Plan, linked: set<Path>, roots: set<Path>, m: Path, r: Path)
    requires Expected(p, linked, roots, r)
    ensures Expected(p, linked, roots + {m}, r)
  {
    if InLayer(p, r, roots * p.Layers()) {
      var l :| l in roots * p.Layers() && Under(l, r);
      assert l in (roots + {m}) * p.Layers();
    }
  }

  lemma Substituted(p: Plan, d0: Disk, d1: Disk, dirs: set<Path>, linked: set<Path>, roots: set<Path>, s: Path)
    requires Geometry(p) && Built(p, d0, dirs, linked, roots) && s in p.substitutes && s !in roots
    requires Sound(d1) && Grows(d0, d1) && d1.nodes == d0.nodes[At(p.view, s) := Absolute(p.substitutes[s])]
    ensures Built(p, d1, dirs, linked, roots + {s})
  {
    hide Sound;
    StillPresent(p, d0, d1, dirs, linked, roots);
    AtRel(p.view, s);
    InsideRoot(p, s, s);
    forall q | q in d1.nodes && q !in p.before.nodes
      ensures Under(p.view, q) && Expected(p, linked, roots + {s}, Rel(p.view, q))
      ensures Rel(p.view, q) in p.Above() ==> d1.nodes[q] == Dir
    {
      if q in d0.nodes {
        MoreExpected(p, linked, roots, s, Rel(p.view, q));
      }
    }
  }

  // ---- the build -----------------------------------------------------------

  /** All of the view: what _workspace_view leaves behind. */
  ghost predicate ViewOf(p: Plan, d: Disk) {
    && Sound(d) && Grows(p.before, d)
    && (forall a :: a in p.Above() ==> IsDir(d.nodes, At(p.view, a)))
    && (forall c :: p.Plain(c) && p.There(c) ==> LinksTo(p, d, c, At(p.top, c)))
    && (forall m :: m in p.Layers() ==> Complete(p, d, m))
    && (forall s :: s in p.substitutes ==> LinksTo(p, d, s, p.substitutes[s]))
    && forall q :: q in d.nodes && q !in p.before.nodes ==>
         && Under(p.view, q)
         && var r := Rel(p.view, q);
            r in p.Above() || r in p.substitutes || (p.There(r) && (p.Plain(r) || InLayer(p, r, p.Layers())))
  }

  predicate Buildable(p: Plan) {
    && (forall a :: a in p.Above() ==> p.IsThereDir(a))
    && forall m :: m in p.shadowed ==> p.IsThereDir(m)
  }

  lemma AllBuilt(p: Plan, d: Disk, linked: set<Path>)
    requires Built(p, d, p.Above(), linked, p.Roots())
    requires forall c :: p.Plain(c) && p.There(c) ==> c in linked
    ensures ViewOf(p, d)
  {
    hide Sound;
    hide Grows;
    forall q | q in d.nodes && q !in p.before.nodes
      ensures Under(p.view, q)
      ensures var r := Rel(p.view, q);
              r in p.Above() || r in p.substitutes || (p.There(r) && (p.Plain(r) || InLayer(p, r, p.Layers())))
    {
      var r := Rel(p.view, q);
      if p.There(r) && InLayer(p, r, p.Roots() * p.Layers()) {
        var m :| m in p.Roots() * p.Layers() && Under(m, r);
        assert InLayer(p, r, p.Layers());
      }
    }
  }

  method LinkEntry(tree: Tree, top: Path, view: Path, child: Path,
                   ghost p: Plan, ghost dirs: set<Path>, ghost linked: set<Path>, ghost roots: set<Path>)
    requires Geometry(p) && p.top == top && p.view == view && Built(p, tree.Now(), dirs, linked, roots)
    requires p.Plain(child) && p.There(child) && child !in linked && Parent(child) in dirs
    modifies tree
    ensures Built(p, tree.Now(), dirs, linked + {child}, roots)
  {
    hide Geometry;
    hide Built;
    hide Sound;
    hide Grows;
    EntryIsFree(p, tree.Now(), dirs, linked, roots, child);
    ParentIsDir(p, tree.Now(), dirs, linked, roots, child);
    tree.Symlink(At(view, child), Absolute(At(top, child)));
    EntryLinked(p, old(tree.Now()), tree.Now(), dirs, linked, roots, child);
  }

  /** The first loop's body: a real directory, with a link for every entry that
      is neither on the way to a root nor one. */
  method LinkEntries(tree: Tree, top: Path, view: Path, relative: Path, solid: set<Path>, skipped: set<Path>,
                     ghost p: Plan, ghost dirs: set<Path>, ghost before: set<Path>, ghost roots: set<Path>)
    returns (ok: bool, ghost linked: set<Path>)
    requires Geometry(p) && p.top == top && p.view == view && solid + skipped == p.Above() + p.Roots()
    requires relative in p.Above() && relative !in dirs && Built(p, tree.Now(), dirs, before, roots)
    requires forall c :: c in before ==> c != [] && Parent(c) in dirs
    modifies tree
    ensures ok == p.IsThereDir(relative)
    ensures Built(p, tree.Now(), dirs + {relative}, linked, roots)
    ensures forall c :: c in linked ==> c != [] && Parent(c) in dirs + {relative}
    ensures before <= linked
    ensures ok ==> forall c :: p.Plain(c) && p.There(c) && Parent(c) == relative ==> c in linked
  {
    hide Geometry;
    hide Built;
    hide Sound;
    hide Grows;
    linked := before;
    WayIsClear(p, tree.Now(), dirs, before, roots, relative);
    BuiltIsSound(p, tree.Now(), dirs, before, roots);
    tree.MkdirParents(At(view, relative));
    DirMade(p, old(tree.Now()), tree.Now(), dirs, before, roots, relative);
    TopIsAsBefore(p, tree.Now(), dirs + {relative}, before, roots, relative);
    if At(top, relative) !in tree.nodes || tree.nodes[At(top, relative)] != Dir {
      return false, linked;
    }
    var names := Listing(tree.nodes, At(top, relative));
    ToLinkAtFirst(p, relative, dirs, linked, names);
    hide ToLink;
    while names != {}
      invariant Built(p, tree.Now(), dirs + {relative}, linked, roots) && before <= linked
      invariant ToLink(p, relative, dirs, linked, names)
      decreases |names|
    {
      var name :| name in names;
      var child := relative + [name];
      ToLinkNext(p, relative, dirs, linked, names, name);
      if !(child in solid || child in skipped) {
        LinkEntry(tree, top, view, child, p, dirs + {relative}, linked, roots);
        linked := linked + {child};
      }
      names := names - {name};
    }
    ToLinkAtLast(p, relative, dirs, linked);
    return true, linked;
  }

  /** Where the loop over one directory is: `names` are not handled yet. */
  ghost predicate ToLink(p: Plan, at: Path, dirs: set<Path>, linked: set<Path>, names: set<Name>) {
    && (forall n :: n in names ==> p.There(at + [n]) && at + [n] !in linked)
    && (forall c :: c in linked ==> c != [] && Parent(c) in dirs + {at})
    && forall c :: p.Plain(c) && p.There(c) && Parent(c) == at ==> c in linked || Leaf(c) in names
  }

  lemma ToLinkAtFirst(p: Plan, at: Path, dirs: set<Path>, linked: set<Path>, names: set<Name>)
    requires at !in dirs && forall c :: c in linked ==> c != [] && Parent(c) in dirs
    requires forall n :: n in names <==> p.There(at + [n])
    ensures ToLink(p, at, dirs, linked, names)
  {
    forall n | n in names
      ensures at + [n] !in linked
    {
      assert Parent(at + [n]) == at;
    }
    forall c: Path | c != [] && Parent(c) == at && p.There(c)
      ensures Leaf(c) in names
    {
      assert c == at + [Leaf(c)];
    }
  }

  lemma ToLinkNext(p: Plan, at: Path, dirs: set<Path>, linked: set<Path>, names: set<Name>, name: Name)
    requires ToLink(p, at, dirs, linked, names) && name in names && at in p.Above()
    ensures var child := at + [name];
            && p.There(child) && child !in linked && Parent(child) == at
            && (child !in p.Above() + p.Roots() ==> p.Plain(child))
            && ToLink(p, at, dirs, if child in p.Above() + p.Roots() then linked else linked + {child}, names - {name})
  {
    var child := at + [name];
    assert Parent(child) == at;
    forall n | n in names && n != name
      ensures at + [n] != child
    {
      assert (at + [n])[|at|] == n;
    }
    forall c | p.Plain(c) && p.There(c) && Parent(c) == at && Leaf(c) == name
      ensures c == child
    {
    }
  }

  lemma ToLinkAtLast(p: Plan, at: Path, dirs: set<Path>, linked: set<Path>)
    requires ToLink(p, at, dirs, linked, {})
    ensures forall c :: c in linked ==> c != [] && Parent(c) in dirs + {at}
    ensures forall c :: p.Plain(c) && p.There(c) && Parent(c) == at ==> c in linked
  {
  }

  lemma BuiltIsSound(p: Plan, d: Disk, dirs: set<Path>, linked: set<Path>, roots: set<Path>)
    requires Built(p, d, dirs, linked, roots)
    ensures Sound(d) && Grows(p.before, d)
  {
    hide Sound;
    hide Grows;
  }

  lemma TopIsAsBefore(p: Plan, d: Disk, dirs: set<Path>, linked: set<Path>, roots: set<Path>, r: Path)
    requires Geometry(p) && Built(p, d, dirs, linked, roots)
    ensures At(p.top, r) in d.nodes <==> At(p.top, r) in p.before.nodes
    ensures At(p.top, r) in d.nodes ==> d.nodes[At(p.top, r)] == p.before.nodes[At(p.top, r)]
    ensures forall n :: At(p.top, r) + [n] in d.nodes <==> At(p.top, r + [n]) in p.before.nodes
  {
    hide Sound;
    NoOverlap(p.top, p.view, At(p.top, r));
    forall n
      ensures At(p.top, r) + [n] in d.nodes <==> At(p.top, r + [n]) in p.before.nodes
    {
      assert At(p.top, r) + [n] == At(p.top, r + [n]);
      NoOverlap(p.top, p.view, At(p.top, r + [n]));
    }
  }

  lemma ParentIsDir(p: Plan, d: Disk, dirs: set<Path>, linked: set<Path>, roots: set<Path>, c: Path)
    requires Built(p, d, dirs, linked, roots) && c != [] && Parent(c) in dirs
    ensures At(p.view, c) != [] && IsDir(d.nodes, Parent(At(p.view, c))) && Sound(d)
  {
    hide Rooted;
    AtRel(p.view, c);
  }

  lemma RealAndSkipped(p: Plan, solid: set<Path>, skipped: set<Path>)
    requires Geometry(p)
    requires solid == {[]} + p.shadowed + (set m, k | m in p.Roots() && 0 <= k < |m| :: m[..k]) - p.copied
    requires skipped == p.copied + p.substitutes.Keys
    ensures solid - p.shadowed == p.Above()
    ensures solid + skipped == p.Above() + p.Roots()
  {
    forall m | m in p.Roots()
      ensures m !in p.Above()
    {
      NotAbove(p, m, m);
    }
  }

  method MirrorLayer(tree: Tree, top: Path, view: Path, relative: Path, skipped: set<Path>, linkable: Path -> bool,
                     ghost p: Plan, ghost dirs: set<Path>, ghost linked: set<Path>, ghost roots: set<Path>)
    returns (ok: bool)
    requires Geometry(p) && p.top == top && p.view == view && Built(p, tree.Now(), dirs, linked, roots)
    requires relative in p.Layers() && relative !in roots && skipped <= p.Roots() - {relative}
    requires forall q :: linkable(q) == (relative in p.shadowed && p.linkable(q))
    modifies tree
    ensures ok == p.IsThereDir(relative)
    ensures ok ==> Built(p, tree.Now(), dirs, linked, roots + {relative})
    ensures Sound(tree.Now()) && Grows(p.before, tree.Now())
  {
    hide Geometry;
    hide Built;
    hide Sound;
    hide Grows;
    hide Reproduced;
    ghost var d := tree.Now();
    ghost var j := Job(d, top, view, relative, skipped, linkable);
    LayerReady(p, d, dirs, linked, roots, relative, j);
    ok := MirrorTree(tree, top, view, relative, skipped, linkable, j);
    if ok {
      LayerMade(p, d, tree.Now(), dirs, linked, roots, relative, j);
      BuiltIsSound(p, tree.Now(), dirs, linked, roots + {relative});
    } else {
      GrowsOn(p.before, d, tree.Now());
    }
  }

  lemma LayerReady(p: Plan, d: Disk, dirs: set<Path>, linked: set<Path>, roots: set<Path>, m: Path, j: Job)
    requires Geometry(p) && Built(p, d, dirs, linked, roots) && m in p.Roots() && m !in roots
    requires j.before == d && j.top == p.top && j.view == p.view && j.base == m
    ensures Ready(j) && Grows(p.before, d) && Sound(d) && (p.IsThereDir(m) <==> IsDir(d.nodes, At(p.top, m)))
    ensures forall q :: Under(q, At(p.view, m)) && q in d.nodes ==> d.nodes[q] == Dir
  {
    hide Sound;
    RootIsFree(p, d, dirs, linked, roots, m);
    WayIsClear(p, d, dirs, linked, roots, m);
    TopIsAsBefore(p, d, dirs, linked, roots, m);
  }

  lemma GrowsOn(a: Disk, b: Disk, c: Disk)
    requires Grows(a, b) && Grows(b, c)
    ensures Grows(a, c)
  {
  }

  method Substitute(tree: Tree, view: Path, relative: Path, target: Path,
                    ghost p: Plan, ghost dirs: set<Path>, ghost linked: set<Path>, ghost roots: set<Path>)
    requires Geometry(p) && p.view == view && Built(p, tree.Now(), dirs, linked, roots)
    requires relative in p.substitutes && p.substitutes[relative] == target && relative !in roots
    modifies tree
    ensures Built(p, tree.Now(), dirs + {Parent(relative)}, linked, roots + {relative})
  {
    ghost var d := tree.Now();
    ghost var way := dirs + {Parent(relative)};
    InAbove(p, relative, |relative| - 1);
    BuiltIsSound(p, d, dirs, linked, roots);
    WayIsClear(p, d, dirs, linked, roots, Parent(relative));
    AtRel(view, relative);
    tree.MkdirParents(Parent(At(view, relative)));
    DirMade(p, d, tree.Now(), dirs, linked, roots, Parent(relative));
    RootIsFree(p, tree.Now(), way, linked, roots, relative);
    hide Geometry;
    hide Built;
    BuiltIsSound(p, tree.Now(), way, linked, roots);
    ghost var d1 := tree.Now();
    assert Under(At(view, relative), At(view, relative));
    tree.Symlink(At(view, relative), Absolute(target));
    Substituted(p, d1, tree.Now(), way, linked, roots, relative);
  }

  /** Every entry of the directories handled so far has its link. */
  ghost predicate LinkedIn(p: Plan, linked: set<Path>, dirs: set<Path>) {
    && (forall c :: c in linked ==> c != [] && Parent(c) in dirs)
    && forall c :: p.Plain(c) && p.There(c) && Parent(c) in dirs ==> c in linked
  }

  lemma LinkedMore(p: Plan, before: set<Path>, linked: set<Path>, dirs: set<Path>, at: Path)
    requires LinkedIn(p, before, dirs) && before <= linked
    requires forall c :: c in linked ==> c != [] && Parent(c) in dirs + {at}
    requires forall c :: p.Plain(c) && p.There(c) && Parent(c) == at ==> c in linked
    ensures LinkedIn(p, linked, dirs + {at})
  {
  }

  lemma LinkedFrom(p: Plan, linked: set<Path>, dirs: set<Path>)
    requires LinkedIn(p, linked, dirs)
    ensures forall c :: c in linked ==> c != [] && Parent(c) in dirs
    ensures dirs == p.Above() ==> forall c :: p.Plain(c) && p.There(c) ==> c in linked
  {
  }

  /** The first loop: the real directories that are no layer. */
  method LinkWay(tree: Tree, top: Path, view: Path, solid: set<Path>, shadowed: set<Path>, skipped: set<Path>,
                 ghost p: Plan)
    returns (ok: bool, ghost linked: set<Path>)
    requires Geometry(p) && p.top == top && p.view == view && Built(p, tree.Now(), {}, {}, p.copied)
    requires solid - shadowed == p.Above() && solid + skipped == p.Above() + p.Roots()
    modifies tree
    ensures ok == forall a :: a in p.Above() ==> p.IsThereDir(a)
    ensures ok ==> Built(p, tree.Now(), p.Above(), linked, p.copied) && LinkedIn(p, linked, p.Above())
    ensures Sound(tree.Now()) && Grows(p.before, tree.Now())
  {
    hide Geometry;
    hide Built;
    hide Sound;
    hide Grows;
    hide Plan.Above;
    hide Plan.Plain;
    var todo := solid - shadowed;
    ghost var dirs := {};
    linked := {};
    assert LinkedIn(p, linked, dirs);
    hide LinkedIn;
    NothingDone(todo);
    hide Split;
    BuiltIsSound(p, tree.Now(), {}, {}, p.copied);
    while todo != {}
      invariant Split(dirs, todo, p.Above()) && forall a :: a in dirs ==> p.IsThereDir(a)
      invariant Built(p, tree.Now(), dirs, linked, p.copied) && LinkedIn(p, linked, dirs)
      invariant Sound(tree.Now()) && Grows(p.before, tree.Now())
      decreases |todo|
    {
      var relative :| relative in todo;
      ghost var before := linked;
      Fresh(dirs, todo, p.Above(), relative);
      LinkedFrom(p, linked, dirs);
      ok, linked := LinkEntries(tree, top, view, relative, solid, skipped, p, dirs, linked, p.copied);
      BuiltIsSound(p, tree.Now(), dirs + {relative}, linked, p.copied);
      if !ok {
        return false, linked;
      }
      LinkedMore(p, before, linked, dirs, relative);
      SplitMore(dirs, todo, p.Above(), relative);
      todo, dirs := todo - {relative}, dirs + {relative};
    }
    SplitEnds(dirs, p.Above());
    return true, linked;
  }

  lemma NothingDone(all: set<Path>)
    ensures Split({}, all, all)
  {
  }

  /** The second loop: the layers this step keeps. */
  method MirrorLayers(tree: Tree, top: Path, view: Path, shadowed: set<Path>, skipped: set<Path>,
                      linkable: Path -> bool,
                      ghost p: Plan, ghost linked: set<Path>)
    returns (ok: bool)
    requires Geometry(p) && p.top == top && p.view == view && p.shadowed == shadowed && p.linkable == linkable
    requires skipped == p.copied + p.substitutes.Keys && Built(p, tree.Now(), p.Above(), linked, p.copied)
    modifies tree
    ensures ok == forall m :: m in shadowed ==> p.IsThereDir(m)
    ensures ok ==> Built(p, tree.Now(), p.Above(), linked, p.Layers())
    ensures Sound(tree.Now()) && Grows(p.before, tree.Now())
  {
    hide Split;
    hide Plan.Roots;
    hide Plan.Layers;
    hide Plan.Above;
    hide Geometry;
    hide Built;
    hide Sound;
    hide Grows;
    BuiltIsSound(p, tree.Now(), p.Above(), linked, p.copied);
    var layers := shadowed;
    ghost var roots := p.copied;
    RootsLeft(p, roots, layers);
    while layers != {}
      invariant layers <= shadowed && forall m :: m in shadowed ==> m in layers || p.IsThereDir(m)
      invariant Split(roots, layers, p.Layers())
      invariant Built(p, tree.Now(), p.Above(), linked, roots)
      invariant Sound(tree.Now()) && Grows(p.before, tree.Now())
      decreases |layers|
    {
      var relative :| relative in layers;
      Fresh(roots, layers, p.Layers(), relative);
      SkippedElsewhere(p, relative, skipped);
      ok := MirrorLayer(tree, top, view, relative, skipped, linkable, p, p.Above(), linked, roots);
      if !ok {
        return false;
      }
      SplitMore(roots, layers, p.Layers(), relative);
      layers, roots := layers - {relative}, roots + {relative};
      BuiltIsSound(p, tree.Now(), p.Above(), linked, roots);
    }
    SplitEnds(roots, p.Layers());
    return true;
  }

  ghost predicate Split(done: set<Path>, rest: set<Path>, all: set<Path>) {
    done + rest == all && done !! rest
  }

  lemma SplitMore(done: set<Path>, rest: set<Path>, all: set<Path>, m: Path)
    requires Split(done, rest, all) && m in rest
    ensures Split(done + {m}, rest - {m}, all)
  {
  }

  lemma SplitEnds(done: set<Path>, all: set<Path>)
    requires Split(done, {}, all)
    ensures done == all
  {
  }

  lemma Fresh(done: set<Path>, rest: set<Path>, all: set<Path>, m: Path)
    requires Split(done, rest, all) && m in rest
    ensures m !in done && m in all
  {
  }

  lemma RootsLeft(p: Plan, roots: set<Path>, layers: set<Path>)
    requires Geometry(p) && roots == p.copied && layers == p.shadowed
    ensures Split(roots, layers, p.Layers())
  {
  }

  lemma SkippedElsewhere(p: Plan, m: Path, skipped: set<Path>)
    requires Geometry(p) && m in p.shadowed && skipped == p.copied + p.substitutes.Keys
    ensures skipped <= p.Roots() - {m}
  {
  }

  /** The third loop: the substitutes by name rather than by what the workspace
      happens to contain. */
  method LinkSubstitutes(tree: Tree, view: Path, substitutes: map<Path, Path>, ghost p: Plan, ghost linked: set<Path>)
    requires Geometry(p) && p.view == view && p.substitutes == substitutes
    requires Built(p, tree.Now(), p.Above(), linked, p.Layers())
    modifies tree
    ensures Built(p, tree.Now(), p.Above(), linked, p.Roots())
  {
    hide Split;
    hide Plan.Roots;
    hide Plan.Layers;
    hide Plan.Above;
    RolesAreDistinct(p);
    hide Geometry;
    hide Built;
    var names := substitutes.Keys;
    ghost var roots := p.Layers();
    SubstitutesLeft(p, roots, names);
    while names != {}
      invariant names <= substitutes.Keys && Split(roots, names, p.Roots())
      invariant Built(p, tree.Now(), p.Above(), linked, roots)
      decreases |names|
    {
      var relative :| relative in names;
      Fresh(roots, names, p.Roots(), relative);
      OnTheWayTo(p, relative);
      Substitute(tree, view, relative, substitutes[relative], p, p.Above(), linked, roots);
      SplitMore(roots, names, p.Roots(), relative);
      names, roots := names - {relative}, roots + {relative};
    }
    SplitEnds(roots, p.Roots());
  }

  lemma SubstitutesLeft(p: Plan, roots: set<Path>, names: set<Path>)
    requires Geometry(p) && roots == p.Layers() && names == p.substitutes.Keys
    ensures Split(roots, names, p.Roots())
  {
  }

  lemma OnTheWayTo(p: Plan, s: Path)
    requires s in p.Roots() && s != []
    ensures p.Above() + {Parent(s)} == p.Above()
  {
    InAbove(p, s, |s| - 1);
  }

  /** _workspace_view: three kinds of entry, and everything else in the
      workspace is a link to the original. */
  method BuildView(tree: Tree, top: Path, view: Path, substitutes: map<Path, Path>, shadowed: set<Path>,
                   copied: set<Path>,
                   linkable: Path -> bool, ghost p: Plan)
    returns (ok: bool)
    requires Geometry(p) && p == Plan(p.before, top, view, substitutes, shadowed, copied, linkable)
    requires Built(p, tree.Now(), {}, {}, copied)
    modifies tree
    ensures ok == Buildable(p)
    ensures ok ==> ViewOf(p, tree.Now())
    ensures Sound(tree.Now()) && Grows(p.before, tree.Now())
  {
    hide Geometry;
    hide Built;
    hide Sound;
    hide Grows;
    hide ViewOf;
    var solid := {[]} + shadowed + (set m, k | m in substitutes.Keys + shadowed + copied && 0 <= k < |m| ::
      m[..k]) - copied;
    var skipped := copied + substitutes.Keys;
    RealAndSkipped(p, solid, skipped);
    ghost var linked;
    ok, linked := LinkWay(tree, top, view, solid, shadowed, skipped, p);
    if !ok {
      return;
    }
    ok := MirrorLayers(tree, top, view, shadowed, skipped, linkable, p, linked);
    if !ok {
      return;
    }
    LinkSubstitutes(tree, view, substitutes, p, linked);
    LinkedFrom(p, linked, p.Above());
    AllBuilt(p, tree.Now(), linked);
    BuiltIsSound(p, tree.Now(), p.Above(), linked, p.Roots());
  }

  lemma RolesAreDistinct(p: Plan)
    requires Geometry(p)
    ensures p.substitutes.Keys !! p.shadowed !! p.copied && [] !in p.Roots()
  {
  }
}
