/** The workspace of one build step: the record's layer paths, and the view a
    step gets of them (mcuhome/compiler/abi.py, _tree_paths, _rebased, _viewed). */
module StepView {
  import opened Wrappers
  import opened FileSystem
  import opened TreeMirror
  import opened WorkspaceView
  import ViewResolution

  // ---- the record ----------------------------------------------------------

  /** A layer's entry: a tree with a path, or something that names none. */
  datatype Entry = Located(path: Path, others: string) | NoPath

  datatype Record = Record(topdir: Option<Path>, layers: Option<map<Name, Entry>>)

  const NOTHING := Record(None, None)

  /** The layers whose entry names a path, by name. */
  function TreePaths(r: Record): map<Name, Path> {
    if r.layers.None? then map[]
    else map n | n in r.layers.value && r.layers.value[n].Located? :: r.layers.value[n].path
  }

  predicate Complete(r: Record) {
    r.topdir.Some? && r.layers.Some?
  }

  /** A layer outside the recorded workspace cannot be moved with it. */
  predicate Outside(r: Record) {
    Complete(r) && exists n :: n in TreePaths(r) && !Under(r.topdir.value, TreePaths(r)[n])
  }

  function Moved(e: Entry, from: Path, to: Path): Entry
    requires e.Located? && Under(from, e.path)
  {
    e.(path := At(to, Rel(from, e.path)))
  }

  function Rebased(r: Record, top: Path): Result<Record, string> {
    if !Complete(r) then Ok(NOTHING)
    else if Outside(r) then Err("outside the workspace")
    else
      Ok(Record(Some(top), Some(map n | n in TreePaths(r) ::
        assert Under(r.topdir.value, TreePaths(r)[n]);
        Moved(r.layers.value[n], r.topdir.value, top))))
  }

  /** Every layer keeps its place inside the workspace, and a record is refused
      exactly when one has none. */
  lemma RebasedKeepsPlaces(r: Record, top: Path)
    requires Complete(r)
    ensures Rebased(r, top).Err? <==> exists n :: n in TreePaths(r) && !Under(r.topdir.value, TreePaths(r)[n])
    ensures Rebased(r, top).Ok? ==>
              var paths := TreePaths(Rebased(r, top).value);
              && paths.Keys == TreePaths(r).Keys
              && forall n :: n in paths ==>
                   Under(top, paths[n]) && At(r.topdir.value, Rel(top, paths[n])) == TreePaths(r)[n]
  {
    if Rebased(r, top).Ok? {
      var moved := Rebased(r, top).value;
      forall n | n in TreePaths(moved)
        ensures Under(top, TreePaths(moved)[n])
        ensures At(r.topdir.value, Rel(top, TreePaths(moved)[n])) == TreePaths(r)[n]
      {
        assert Under(r.topdir.value, TreePaths(r)[n]);
        AtRel(top, Rel(r.topdir.value, TreePaths(r)[n]));
      }
    }
  }

  /** What is moved: every layer with a path, by its place in the workspace and with
      the rest of its entry as it was; a record that names no workspace comes back empty. */
  lemma RebasedExactly(r: Record, top: Path)
    ensures !Complete(r) ==> Rebased(r, top) == Ok(Record(None, None))
    ensures Complete(r) && Rebased(r, top).Ok? ==>
              var moved := Rebased(r, top).value;
              && moved.topdir == Some(top) && moved.layers.Some?
              && forall n, place: Path, others: string ::
                   (n in moved.layers.value && moved.layers.value[n] == Located(top + place, others))
                   <==> (n in r.layers.value && r.layers.value[n] == Located(r.topdir.value + place, others))
  {
    if Complete(r) && Rebased(r, top).Ok? {
      var moved := Rebased(r, top).value.layers.value;
      forall n, place: Path, others: string
        ensures (n in moved && moved[n] == Located(top + place, others))
                <==> (n in r.layers.value && r.layers.value[n] == Located(r.topdir.value + place, others))
      {
        if n in TreePaths(r) {
          assert Under(r.topdir.value, TreePaths(r)[n]);
          SamePlace(r.topdir.value, top, TreePaths(r)[n], place);
        }
      }
    }
  }

  lemma SamePlace(from: Path, to: Path, p: Path, place: Path)
    requires Under(from, p)
    ensures At(to, Rel(from, p)) == to + place <==> p == from + place
  {
    assert p == from + Rel(from, p);
    assert (to + place)[|to|..] == place && At(to, Rel(from, p))[|to|..] == Rel(from, p);
  }

  /** A view is one more place a workspace is unpacked at: moving twice is moving once. */
  lemma RebasedTwice(r: Record, first: Path, second: Path)
    requires Complete(r) && Rebased(r, first).Ok?
    ensures Rebased(Rebased(r, first).value, second) == Rebased(r, second)
  {
    var moved := Rebased(r, first).value;
    RebasedKeepsPlaces(r, first);
    var again := Rebased(moved, second);
    var once := Rebased(r, second);
    forall n | n in TreePaths(r)
      ensures again.value.layers.value[n] == once.value.layers.value[n]
    {
      assert Under(r.topdir.value, TreePaths(r)[n]);
      AtRel(first, Rel(r.topdir.value, TreePaths(r)[n]));
      assert again.value.layers.value[n] == Moved(moved.layers.value[n], first, second);
    }
    assert again.value.layers.value == once.value.layers.value;
  }

  // ---- the view --------------------------------------------------------------

  const SDK: Name := "sdk"

  /** No layer inside another, and all of them inside the workspace. */
  ghost predicate Separate(layers: map<Name, Path>, top: Path) {
    && (forall n :: n in layers ==> Under(top, layers[n]) && layers[n] != top)
    && forall a, b :: a in layers && b in layers && Under(layers[a], layers[b]) ==> a == b
  }

  /** The plan behind a step's view: patched layers copied, the others mirrored,
      the SDK substituted. */
  function PlanOf(before: Disk, top: Path, view: Path, layers: map<Name, Path>, sdkTree: Path, patched: set<Name>,
                  linkable: Path -> bool): Plan
    requires SDK in layers && forall n :: n in layers ==> Under(top, layers[n])
  {
    Plan(before, top, view, map[Rel(top, layers[SDK]) := sdkTree],
         set n | n in layers && n != SDK && n !in patched :: Rel(top, layers[n]),
         set n | n in layers && n != SDK && n in patched :: Rel(top, layers[n]),
         linkable)
  }

  /** The layer at a root, and what is done with it. */
  lemma LayerAt(p: Plan, layers: map<Name, Path>, sdkTree: Path, patched: set<Name>, r: Path) returns (n: Name)
    requires SDK in layers && Separate(layers, p.top) && r in p.Roots()
    requires p == PlanOf(p.before, p.top, p.view, layers, sdkTree, patched, p.linkable)
    ensures n in layers && layers[n] == At(p.top, r) && r != []
    ensures r in p.substitutes <==> n == SDK
    ensures r in p.copied <==> n != SDK && n in patched
    ensures r in p.shadowed <==> n != SDK && n !in patched
  {
    n :| n in layers && r == Rel(p.top, layers[n]);
    forall m | m in layers && r == Rel(p.top, layers[m])
      ensures m == n
    {
      assert layers[m] == At(p.top, r) == layers[n];
      assert Under(layers[m], layers[n]);
    }
  }

  lemma SeparateRoots(p: Plan, layers: map<Name, Path>, sdkTree: Path, patched: set<Name>)
    requires SDK in layers && Separate(layers, p.top)
    requires p == PlanOf(p.before, p.top, p.view, layers, sdkTree, patched, p.linkable)
    requires Sound(p.before) && Apart(p.top, p.view)
    requires p.view != [] && IsDir(p.before.nodes, Parent(p.view))
    requires forall q :: q in p.before.nodes ==> !Under(p.view, q)
    ensures Geometry(p)
  {
    hide Sound;
    hide PlanOf;
    forall a, b | a in p.Roots() && b in p.Roots() && Under(a, b)
      ensures a == b
    {
      var m := LayerAt(p, layers, sdkTree, patched, a);
      var n := LayerAt(p, layers, sdkTree, patched, b);
      assert Under(layers[m], layers[n]);
    }
    forall r | r in p.Roots()
      ensures r != [] && !(r in p.substitutes && r in p.Layers()) && !(r in p.shadowed && r in p.copied)
    {
      var n := LayerAt(p, layers, sdkTree, patched, r);
    }
  }

  /** _patched_copy: the tree's own bytes in inodes of its own. */
  method PatchedCopy(tree: Tree, top: Path, view: Path, relative: Path, ghost p: Plan, ghost copies: set<Path>)
    returns (ok: bool)
    requires Geometry(p) && p.top == top && p.view == view && Built(p, tree.Now(), {}, {}, copies)
    requires relative in p.copied && relative !in copies
    modifies tree
    ensures ok == p.IsThereDir(relative)
    ensures ok ==> Built(p, tree.Now(), {}, {}, copies + {relative})
    ensures Sound(tree.Now()) && Grows(p.before, tree.Now())
  {
    RolesAreDistinct(p);
    hide Geometry;
    hide Built;
    hide Sound;
    hide Grows;
    ok := MirrorLayer(tree, top, view, relative, {}, _ => false, p, {}, {}, copies);
  }

  /** What the copies before the view leave: nothing but the patched layers. */
  method CopyPatched(tree: Tree, top: Path, view: Path, layers: map<Name, Path>, patched: set<Name>,
                     ghost p: Plan, ghost sdkTree: Path)
    returns (ok: bool, copies: set<Path>)
    requires SDK in layers && Separate(layers, top) && Geometry(p) && p.before == tree.Now()
    requires p == PlanOf(tree.Now(), top, view, layers, sdkTree, patched, p.linkable)
    modifies tree
    ensures ok == forall m :: m in p.copied ==> p.IsThereDir(m)
    ensures ok ==> copies == p.copied && Built(p, tree.Now(), {}, {}, p.copied)
    ensures Sound(tree.Now()) && Grows(p.before, tree.Now())
  {
    hide Geometry;
    hide Built;
    hide Sound;
    hide Grows;
    hide ToCopy;
    hide Plan.IsThereDir;
    copies := {};
    var names := set n | n in patched && n in layers && n != SDK;
    NothingBuilt(p);
    CopiedNames(p, layers, sdkTree, patched, names);
    hide PlanOf;
    hide Separate;
    while names != {}
      invariant names <= layers.Keys && ToCopy(p, layers, names, copies)
      invariant Built(p, tree.Now(), {}, {}, copies) && Sound(tree.Now()) && Grows(p.before, tree.Now())
      decreases |names|
    {
      var name :| name in names;
      var relative := Rel(top, layers[name]);
      CopyNext(p, layers, names, copies, name);
      ok := PatchedCopy(tree, top, view, relative, p, copies);
      if !ok {
        return false, copies;
      }
      copies := copies + {relative};
      names := names - {name};
    }
    CopiedAll(p, layers, copies);
    return true, copies;
  }

  /** `copies` are made and `names` name the others. */
  ghost predicate ToCopy(p: Plan, layers: map<Name, Path>, names: set<Name>, copies: set<Path>)
    requires names <= layers.Keys && forall n :: n in layers ==> Under(p.top, layers[n])
  {
    && (forall n :: n in names ==> Rel(p.top, layers[n]) in p.copied && Rel(p.top, layers[n]) !in copies)
    && (forall m :: m in p.copied ==> m in copies || exists n :: n in names && Rel(p.top, layers[n]) == m)
    && forall m :: m in copies ==> m in p.copied && p.IsThereDir(m)
  }

  lemma CopyNext(p: Plan, layers: map<Name, Path>, names: set<Name>, copies: set<Path>, name: Name)
    requires Separate(layers, p.top) && Geometry(p) && names <= layers.Keys && name in names
    requires ToCopy(p, layers, names, copies)
    ensures var m := Rel(p.top, layers[name]);
            && m in p.copied && m !in copies
            && (p.IsThereDir(m) ==> ToCopy(p, layers, names - {name}, copies + {m}))
  {
    hide Sound;
    OtherPlaces(layers, p.top, name);
  }

  lemma CopiedAll(p: Plan, layers: map<Name, Path>, copies: set<Path>)
    requires forall n :: n in layers ==> Under(p.top, layers[n])
    requires ToCopy(p, layers, {}, copies)
    ensures copies == p.copied && forall m :: m in p.copied ==> p.IsThereDir(m)
  {
  }

  lemma NothingBuilt(p: Plan)
    requires Geometry(p)
    ensures Built(p, p.before, {}, {}, {}) && Sound(p.before) && Grows(p.before, p.before)
  {
    hide Sound;
  }

  lemma CopiedNames(p: Plan, layers: map<Name, Path>, sdkTree: Path, patched: set<Name>, names: set<Name>)
    requires SDK in layers && Separate(layers, p.top)
    requires p == PlanOf(p.before, p.top, p.view, layers, sdkTree, patched, p.linkable)
    requires names == set n | n in patched && n in layers && n != SDK
    ensures ToCopy(p, layers, names, {})
  {
  }

  lemma OtherPlaces(layers: map<Name, Path>, top: Path, name: Name)
    requires Separate(layers, top) && name in layers
    ensures forall n :: n in layers && n != name ==> Rel(top, layers[n]) != Rel(top, layers[name])
  {
    forall n | n in layers && n != name
      ensures Rel(top, layers[n]) != Rel(top, layers[name])
    {
      assert !Under(layers[n], layers[name]);
      assert layers[n] == At(top, Rel(top, layers[n])) && layers[name] == At(top, Rel(top, layers[name]));
    }
  }

  // ---- what the step sees, in the record's own terms -------------------------------

  /** On the way to a layer, which it is not yet. */
  ghost predicate OnTheWay(layers: map<Name, Path>, q: Path) {
    exists n :: n in layers && Under(q, layers[n]) && q != layers[n]
  }

  ghost predicate IsLayer(layers: map<Name, Path>, q: Path) {
    exists n :: n in layers && layers[n] == q
  }

  /** An entry of a directory on the way, that leads nowhere itself. */
  ghost predicate Beside(layers: map<Name, Path>, top: Path, r: Path) {
    && r != [] && OnTheWay(layers, At(top, Parent(r)))
    && !OnTheWay(layers, At(top, r)) && !IsLayer(layers, At(top, r))
  }

  /** The delivered SDK at its layer's place, by name. */
  ghost predicate SdkLinked(d: Disk, top: Path, view: Path, layers: map<Name, Path>, sdkTree: Path)
    requires SDK in layers && Under(top, layers[SDK])
  {
    var v := At(view, Rel(top, layers[SDK]));
    v in d.nodes && d.nodes[v] == Absolute(sdkTree)
  }

  /** Every other layer's own tree, in inodes of its own where it is patched. */
  ghost predicate OwnTrees(before: Disk, d: Disk, top: Path, view: Path, layers: map<Name, Path>, patched: set<Name>,
                           linkable: Path -> bool) {
    forall n, r :: n in layers && n != SDK && Under(layers[n], At(top, r)) && At(top, r) in before.nodes ==>
      && At(view, r) in d.nodes
      && Twin(before, before.nodes[At(top, r)], d, d.nodes[At(view, r)], n !in patched && linkable(At(top, r)))
  }

  /** Real directories on the way, and links to the original beside it. */
  ghost predicate WayLinked(before: Disk, d: Disk, top: Path, view: Path, layers: map<Name, Path>) {
    && (forall r :: OnTheWay(layers, At(top, r)) ==> IsDir(d.nodes, At(view, r)))
    && forall r :: Beside(layers, top, r) && At(top, r) in before.nodes ==>
         At(view, r) in d.nodes && d.nodes[At(view, r)] == Absolute(At(top, r))
  }

  /** What a step finds, and the original as it was. */
  ghost predicate Presents(before: Disk, d: Disk, top: Path, view: Path, layers: map<Name, Path>, sdkTree: Path,
                           patched: set<Name>, linkable: Path -> bool)
    requires SDK in layers && Under(top, layers[SDK])
  {
    && Grows(before, d)
    && SdkLinked(d, top, view, layers, sdkTree)
    && OwnTrees(before, d, top, view, layers, patched, linkable)
    && WayLinked(before, d, top, view, layers)
  }

  /** Every layer but the SDK is there, and real directories lead to all of them. */
  ghost predicate Assemblable(nodes: map<Path, Node>, top: Path, layers: map<Name, Path>) {
    && (forall n :: n in layers && n != SDK ==> IsDir(nodes, layers[n]))
    && forall r :: OnTheWay(layers, At(top, r)) ==> IsDir(nodes, At(top, r))
  }

  /** A walk through a place of the view, and the same walk from where it leads: by
      name, and from the directory itself if it is one. */
  ghost predicate Delivers(nodes: map<Path, Node>, view: Path, r: Path, target: Path) {
    forall rest: seq<Step>, links: nat ::
      var walked := ViewResolution.Walk(nodes, view, Downs(r) + rest, links + 1);
      && walked == ViewResolution.Walk(nodes, [], Downs(target) + rest, links)
      && (IsDir(nodes, target) ==> walked == ViewResolution.Walk(nodes, target, rest, links))
  }

  lemma RootIsLayer(p: Plan, layers: map<Name, Path>, sdkTree: Path, patched: set<Name>, r: Path)
    requires SDK in layers && Separate(layers, p.top)
    requires p == PlanOf(p.before, p.top, p.view, layers, sdkTree, patched, p.linkable)
    ensures r in p.Roots() <==> IsLayer(layers, At(p.top, r))
  {
    if r in p.Roots() {
      var n := LayerAt(p, layers, sdkTree, patched, r);
    }
    if n :| n in layers && layers[n] == At(p.top, r) {
      assert Rel(p.top, layers[n]) == r;
    }
  }

  lemma AboveOnWay(p: Plan, layers: map<Name, Path>, sdkTree: Path, patched: set<Name>, a: Path)
    requires SDK in layers && Separate(layers, p.top) && a in p.Above()
    requires p == PlanOf(p.before, p.top, p.view, layers, sdkTree, patched, p.linkable)
    ensures OnTheWay(layers, At(p.top, a))
  {
    if a == [] {
      assert At(p.top, a) == p.top && Under(At(p.top, a), layers[SDK]);
    } else {
      var m, k :| m in p.Roots() && 0 <= k < |m| && a == m[..k];
      var n := LayerAt(p, layers, sdkTree, patched, m);
      hide PlanOf;
      assert layers[n] == At(p.top, m) && Under(At(p.top, a), layers[n]);
    }
  }

  lemma AboveIsWay(p: Plan, layers: map<Name, Path>, sdkTree: Path, patched: set<Name>, a: Path)
    requires SDK in layers && Separate(layers, p.top)
    requires p == PlanOf(p.before, p.top, p.view, layers, sdkTree, patched, p.linkable)
    ensures a in p.Above() <==> OnTheWay(layers, At(p.top, a))
  {
    if a in p.Above() {
      AboveOnWay(p, layers, sdkTree, patched, a);
    }
    if n :| n in layers && Under(At(p.top, a), layers[n]) && At(p.top, a) != layers[n] {
      var m := Rel(p.top, layers[n]);
      assert layers[n] == At(p.top, m);
      RootIsLayer(p, layers, sdkTree, patched, m);
      hide PlanOf;
      InAbove(p, m, |a|);
      assert m[..|a|] == a;
    }
  }

  lemma AssemblableIs(p: Plan, layers: map<Name, Path>, sdkTree: Path, patched: set<Name>)
    requires SDK in layers && Separate(layers, p.top)
    requires p == PlanOf(p.before, p.top, p.view, layers, sdkTree, patched, p.linkable)
    ensures (Buildable(p) && forall m :: m in p.copied ==> p.IsThereDir(m))
            <==> Assemblable(p.before.nodes, p.top, layers)
  {
    forall a: Path
      ensures a in p.Above() <==> OnTheWay(layers, At(p.top, a))
    {
      AboveIsWay(p, layers, sdkTree, patched, a);
    }
    hide Plan.Above;
    hide OnTheWay;
    forall n | n in layers && n != SDK
      ensures Rel(p.top, layers[n]) in p.Layers() && At(p.top, Rel(p.top, layers[n])) == layers[n]
    {
    }
    forall m | m in p.Layers()
      ensures exists n :: n in layers && n != SDK && layers[n] == At(p.top, m)
    {
      var n :| n in layers && n != SDK && m == Rel(p.top, layers[n]);
      assert layers[n] == At(p.top, m);
    }
    hide PlanOf;
  }

  lemma LayerIs(p: Plan, layers: map<Name, Path>, sdkTree: Path, patched: set<Name>, n: Name)
    requires SDK in layers && Separate(layers, p.top) && n in layers && n != SDK
    requires p == PlanOf(p.before, p.top, p.view, layers, sdkTree, patched, p.linkable)
    ensures var m := Rel(p.top, layers[n]);
            layers[n] == At(p.top, m) && m in p.Layers() && (m in p.shadowed <==> n !in patched)
  {
    var m := Rel(p.top, layers[n]);
    assert layers[n] == At(p.top, m) && m in p.Layers();
    var x := LayerAt(p, layers, sdkTree, patched, m);
    assert Under(layers[n], layers[x]);
  }

  lemma LayerStands(p: Plan, d: Disk, layers: map<Name, Path>, sdkTree: Path, patched: set<Name>, n: Name, r: Path)
    requires SDK in layers && Separate(layers, p.top) && ViewOf(p, d)
    requires p == PlanOf(p.before, p.top, p.view, layers, sdkTree, patched, p.linkable)
    requires n in layers && n != SDK && Under(layers[n], At(p.top, r)) && p.There(r)
    ensures At(p.view, r) in d.nodes
    ensures Twin(p.before, p.before.nodes[At(p.top, r)], d, d.nodes[At(p.view, r)],
                 n !in patched && p.linkable(At(p.top, r)))
  {
    var m := Rel(p.top, layers[n]);
    LayerIs(p, layers, sdkTree, patched, n);
    assert Under(m, r);
    hide PlanOf;
    hide Separate;
    assert WorkspaceView.Complete(p, d, m) by {
      hide WorkspaceView.Complete;
      hide Sound;
      hide Grows;
    }
    hide ViewOf;
    hide Twin;
    assert Stands(p, d, r, m in p.shadowed);
  }

  lemma PlanOwnTrees(p: Plan, d: Disk, layers: map<Name, Path>, sdkTree: Path, patched: set<Name>)
    requires SDK in layers && Separate(layers, p.top) && ViewOf(p, d)
    requires p == PlanOf(p.before, p.top, p.view, layers, sdkTree, patched, p.linkable)
    ensures OwnTrees(p.before, d, p.top, p.view, layers, patched, p.linkable)
  {
    hide PlanOf;
    hide ViewOf;
    hide Separate;
    hide Twin;
    forall n, r | n in layers && n != SDK && Under(layers[n], At(p.top, r)) && At(p.top, r) in p.before.nodes
      ensures At(p.view, r) in d.nodes
      ensures Twin(p.before, p.before.nodes[At(p.top, r)], d, d.nodes[At(p.view, r)],
                   n !in patched && p.linkable(At(p.top, r)))
    {
      LayerStands(p, d, layers, sdkTree, patched, n, r);
    }
  }

  lemma PlanWayLinked(p: Plan, d: Disk, layers: map<Name, Path>, sdkTree: Path, patched: set<Name>)
    requires SDK in layers && Separate(layers, p.top) && ViewOf(p, d)
    requires p == PlanOf(p.before, p.top, p.view, layers, sdkTree, patched, p.linkable)
    ensures WayLinked(p.before, d, p.top, p.view, layers)
  {
    forall r: Path
      ensures r in p.Above() <==> OnTheWay(layers, At(p.top, r))
      ensures r in p.Roots() <==> IsLayer(layers, At(p.top, r))
    {
      AboveIsWay(p, layers, sdkTree, patched, r);
      RootIsLayer(p, layers, sdkTree, patched, r);
    }
    hide PlanOf;
    hide Plan.Above;
    hide Plan.Roots;
    hide OnTheWay;
    hide IsLayer;
    hide Separate;
    hide Sound;
    hide Grows;
    forall r | Beside(layers, p.top, r) && At(p.top, r) in p.before.nodes
      ensures At(p.view, r) in d.nodes && d.nodes[At(p.view, r)] == Absolute(At(p.top, r))
    {
      assert p.Plain(r) && p.There(r);
      assert LinksTo(p, d, r, At(p.top, r));
    }
  }

  lemma PlanPresents(p: Plan, d: Disk, layers: map<Name, Path>, sdkTree: Path, patched: set<Name>)
    requires SDK in layers && Separate(layers, p.top) && ViewOf(p, d)
    requires p == PlanOf(p.before, p.top, p.view, layers, sdkTree, patched, p.linkable)
    ensures Presents(p.before, d, p.top, p.view, layers, sdkTree, patched, p.linkable)
  {
    PlanOwnTrees(p, d, layers, sdkTree, patched);
    PlanWayLinked(p, d, layers, sdkTree, patched);
    hide OwnTrees;
    hide WayLinked;
    hide Grows;
    hide Sound;
    var s := Rel(p.top, layers[SDK]);
    assert s in p.substitutes && p.substitutes[s] == sdkTree;
    assert LinksTo(p, d, s, sdkTree);
  }

  lemma PlanDelivers(p: Plan, d: Disk, layers: map<Name, Path>, sdkTree: Path, patched: set<Name>)
    requires SDK in layers && Separate(layers, p.top) && Geometry(p) && Buildable(p) && ViewOf(p, d)
    requires p == PlanOf(p.before, p.top, p.view, layers, sdkTree, patched, p.linkable)
    ensures Delivers(d.nodes, p.view, Rel(p.top, layers[SDK]), sdkTree)
  {
    var s := Rel(p.top, layers[SDK]);
    assert s in p.substitutes && p.substitutes[s] == sdkTree;
    assert Sound(d);
    forall rest: seq<Step>, links: nat
      ensures var walked := ViewResolution.Walk(d.nodes, p.view, Downs(s) + rest, links + 1);
              && walked == ViewResolution.Walk(d.nodes, [], Downs(sdkTree) + rest, links)
              && (IsDir(d.nodes, sdkTree) ==> walked == ViewResolution.Walk(d.nodes, sdkTree, rest, links))
    {
      ViewResolution.ManifestPath(p, d, s, rest, links);
      if IsDir(d.nodes, sdkTree) {
        ViewResolution.WalkDown(d.nodes, sdkTree, 0, rest, links);
        assert sdkTree[..0] == [] && sdkTree[0..] == sdkTree;
      }
    }
  }

  /** _viewed: the copies first, then the view, then the record moved onto it. */
  method Viewed(tree: Tree, record: Record, top: Path, view: Path, sdkTree: Path, patched: set<Name>,
                linkable: Path -> bool, ghost p: Plan)
    returns (moved: Result<Record, string>)
    requires Complete(record) && record.topdir == Some(top) && SDK in TreePaths(record)
        && Separate(TreePaths(record), top)
    requires p == PlanOf(tree.Now(), top, view, TreePaths(record), sdkTree, patched, linkable)
    requires Sound(tree.Now()) && Apart(top, view) && view != [] && IsDir(tree.nodes, Parent(view))
    requires forall q :: q in tree.nodes ==> !Under(view, q)
    modifies tree
    ensures moved.Ok? <==> Buildable(p) && forall m :: m in p.copied ==> p.IsThereDir(m)
    ensures moved.Ok? <==> Assemblable(old(tree.nodes), top, TreePaths(record))
    ensures moved.Ok? ==> ViewOf(p, tree.Now()) && moved == Rebased(record, view)
    ensures moved.Ok? ==>
              Presents(old(tree.Now()), tree.Now(), top, view, TreePaths(record), sdkTree, patched, linkable)
    ensures moved.Ok? ==> Delivers(tree.nodes, view, Rel(top, TreePaths(record)[SDK]), sdkTree)
    ensures Sound(tree.Now()) && Grows(old(tree.Now()), tree.Now())
  {
    hide Geometry;
    hide Built;
    hide Sound;
    hide Grows;
    hide ViewOf;
    hide Rebased;
    hide Buildable;
    var paths := TreePaths(record);
    SeparateRoots(p, paths, sdkTree, patched);
    var ok, copies := CopyPatched(tree, top, view, paths, patched, p, sdkTree);
    if ok {
      var own := paths - {SDK};
      var shadowed := (set n | n in own :: Rel(top, own[n])) - copies;
      KeptNames(p, paths, sdkTree, patched, shadowed);
      ok := BuildView(tree, top, view, map[Rel(top, paths[SDK]) := sdkTree], shadowed, copies, linkable, p);
    }
    RebasedKeepsPlaces(record, view);
    AssemblableIs(p, paths, sdkTree, patched);
    if ok {
      PlanPresents(p, tree.Now(), paths, sdkTree, patched);
      PlanDelivers(p, tree.Now(), paths, sdkTree, patched);
    }
    hide Presents;
    hide Delivers;
    hide Assemblable;
    return if ok then Rebased(record, view) else Err("cannot assemble a view");
  }

  lemma KeptNames(p: Plan, layers: map<Name, Path>, sdkTree: Path, patched: set<Name>, shadowed: set<Path>)
    requires SDK in layers && Separate(layers, p.top)
    requires p == PlanOf(p.before, p.top, p.view, layers, sdkTree, patched, p.linkable)
    requires var own := layers - {SDK}; shadowed == (set n | n in own :: Rel(p.top, own[n])) - p.copied
    ensures shadowed == p.shadowed
  {
    assert forall n :: n in layers - {SDK} <==> n in layers && n != SDK;
    forall m | m in p.shadowed
      ensures m !in p.copied
    {
      var n := LayerAt(p, layers, sdkTree, patched, m);
    }
  }
}
