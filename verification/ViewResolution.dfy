/** What a path means in a finished view (mcuhome/compiler/abi.py,
    _workspace_view): the kernel's walk through it, against the original. */
module ViewResolution {
  import opened Wrappers
  import opened FileSystem
  import opened TreeMirror
  import opened WorkspaceView

  datatype Move = To(cur: Path, steps: seq<Step>, links: nat) | End(at: Option<Path>)

  /** One component resolved in directory `cur`: `..` of the root is the root, a
      link is followed where it stands, at most `links` of them. */
  function Resolve(nodes: map<Path, Node>, cur: Path, steps: seq<Step>, links: nat): (m: Move)
    requires steps != []
    ensures m.To? ==> m.links < links || (m.links == links && |m.steps| < |steps|)
  {
    var rest := steps[1..];
    match steps[0]
    case Up => To(if cur == [] then [] else Parent(cur), rest, links)
    case Down(name) =>
      var p := cur + [name];
      if p !in nodes then End(None)
      else match nodes[p]
        case Dir => To(p, rest, links)
        case File(_) => End(if rest == [] then Some(p) else None)
        case Link(target) =>
          if links == 0 then End(None)
          else To(if target.absolute then [] else cur, target.steps + rest, links - 1)
  }

  /** The kernel's path resolution. */
  function Walk(nodes: map<Path, Node>, cur: Path, steps: seq<Step>, links: nat): Option<Path>
    decreases links, |steps|
  {
    if steps == [] then Some(cur)
    else match Resolve(nodes, cur, steps, links)
      case To(next, more, left) => Walk(nodes, next, more, left)
      case End(at) => at
  }

  function Continue(nodes: map<Path, Node>, m: Move): Option<Path> {
    match m
    case To(cur, steps, links) => Walk(nodes, cur, steps, links)
    case End(at) => at
  }

  // ---- the same walk, told from the original alone ---------------------------

  /** Where a walk through the view is: still inside it, or at an original path. */
  datatype Place = Inside(r: Path) | Outside(o: Path)

  datatype Outcome =
    | On(place: Place, steps: seq<Step>, links: nat)
    | Lands(place: Place)
    | IntoSubstitute(root: Path, rest: seq<Step>, links: nat)
    | AboveView(rest: seq<Step>, links: nat)
    | BackIntoView(rest: seq<Step>, links: nat)
    | Lost

  function InView(p: Plan, at: Place): Path {
    match at
    case Inside(r) => At(p.view, r)
    case Outside(o) => o
  }

  function InOriginal(p: Plan, at: Place): Path {
    match at
    case Inside(r) => At(p.top, r)
    case Outside(o) => o
  }

  /** One component of a walk through the view, read off the disk as it was
      before there was one. */
  function StepInside(p: Plan, r: Path, steps: seq<Step>, links: nat): (o: Outcome)
    requires steps != []
    ensures o.On? ==> o.links < links || (o.links == links && |o.steps| < |steps|)
  {
    var rest := steps[1..];
    match steps[0]
    case Up => if r == [] then AboveView(rest, links) else On(Inside(Parent(r)), rest, links)
    case Down(name) =>
      var c := r + [name];
      if c in p.substitutes then IntoSubstitute(c, rest, links)
      else if c in p.Above() then On(Inside(c), rest, links)
      else if !p.There(c) then Lost
      else if InLayer(p, c, p.Layers()) then
        match p.before.nodes[At(p.top, c)]
        case Dir => On(Inside(c), rest, links)
        case File(_) => if rest == [] then Lands(Inside(c)) else Lost
        case Link(target) =>
          if links == 0 then Lost
          else On(if target.absolute then Outside([]) else Inside(r), target.steps + rest, links - 1)
      else if links == 0 then Lost
      else On(Outside(At(p.top, r)), steps, links - 1)
  }

  function StepOutside(p: Plan, o: Path, steps: seq<Step>, links: nat): (r: Outcome)
    requires steps != []
    ensures r.On? ==> r.links < links || (r.links == links && |r.steps| < |steps|)
  {
    var rest := steps[1..];
    match steps[0]
    case Up => On(Outside(if o == [] then [] else Parent(o)), rest, links)
    case Down(name) =>
      var c := o + [name];
      if c == p.view then BackIntoView(rest, links)
      else if c !in p.before.nodes then Lost
      else match p.before.nodes[c]
        case Dir => On(Outside(c), rest, links)
        case File(_) => if rest == [] then Lands(Outside(c)) else Lost
        case Link(target) =>
          if links == 0 then Lost
          else On(if target.absolute then Outside([]) else Outside(o), target.steps + rest, links - 1)
  }

  function OneStep(p: Plan, at: Place, steps: seq<Step>, links: nat): (o: Outcome)
    requires steps != []
    ensures o.On? ==> o.links < links || (o.links == links && |o.steps| < |steps|)
  {
    match at
    case Inside(r) => StepInside(p, r, steps, links)
    case Outside(o) => StepOutside(p, o, steps, links)
  }

  /** Where a walk through the view goes. */
  function Route(p: Plan, at: Place, steps: seq<Step>, links: nat): (o: Outcome)
    ensures !o.On?
    decreases links, |steps|
  {
    if steps == [] then Lands(at)
    else
      var o := OneStep(p, at, steps, links);
      if o.On? then Route(p, o.place, o.steps, o.links) else o
  }

  /** A directory a walk can be in. */
  ghost predicate Stance(p: Plan, at: Place) {
    match at
    case Inside(r) => r in p.Above() || (p.IsThereDir(r) && InLayer(p, r, p.Layers()))
    case Outside(o) => IsDir(p.before.nodes, o)
  }

  /** A place a walk can end at. */
  ghost predicate Landing(p: Plan, at: Place) {
    match at
    case Inside(r) => r in p.Above() || (p.There(r) && InLayer(p, r, p.Layers()))
    case Outside(o) => o in p.before.nodes
  }

  ghost predicate Ready(p: Plan, d: Disk) {
    Geometry(p) && Buildable(p) && ViewOf(p, d)
  }

  // ---- the view is walked as told ----------------------------------------------

  /** The kernel's walk through the finished view does what the route says. */
  ghost predicate Follows(p: Plan, d: Disk, walked: Option<Path>, route: Outcome) {
    match route
    case On(place, steps, links) => Stance(p, place) && walked == Walk(d.nodes, InView(p, place), steps, links)
    case Lands(place) => walked == Some(InView(p, place)) && Landing(p, place)
    case IntoSubstitute(root, rest, links) =>
      root in p.substitutes && walked == if links == 0 then None
                                         else Walk(d.nodes, [], Downs(p.substitutes[root]) + rest, links - 1)
    case AboveView(rest, links) => p.view != [] && walked == Walk(d.nodes, Parent(p.view), rest, links)
    case BackIntoView(rest, links) => walked == Walk(d.nodes, p.view, rest, links)
    case Lost => walked == None
  }

  /** One name down, inside the view: what the view has there. */
  lemma DownInside(p: Plan, d: Disk, r: Path, name: Name)
    requires Ready(p, d) && Stance(p, Inside(r))
    ensures At(p.view, r) + [name] == At(p.view, r + [name])
    ensures var c, v := r + [name], At(p.view, r + [name]);
            if c in p.substitutes then v in d.nodes && d.nodes[v] == Absolute(p.substitutes[c])
            else if c in p.Above() then IsDir(d.nodes, v) && Stance(p, Inside(c))
            else if !p.There(c) then v !in d.nodes
            else if InLayer(p, c, p.Layers()) then
              && v in d.nodes
              && match p.before.nodes[At(p.top, c)]
                 case Dir => d.nodes[v] == Dir && Stance(p, Inside(c))
                 case File(_) => d.nodes[v].File?
                 case Link(_) => d.nodes[v] == p.before.nodes[At(p.top, c)]
            else v in d.nodes && d.nodes[v] == Absolute(At(p.top, c)) && Stance(p, Outside(At(p.top, r)))
  {
    hide Sound;
    hide Grows;
    var c, v := r + [name], At(p.view, r + [name]);
    assert Parent(c) == r;
    AtRel(p.view, c);
    if c !in p.substitutes && c !in p.Above() && p.There(c) {
      if InLayer(p, c, p.Layers()) {
        var m :| m in p.Layers() && Under(m, c);
        assert WorkspaceView.Complete(p, d, m);
        assert Stands(p, d, c, m in p.shadowed);
      } else {
        NotInLayer(p, r, name);
        assert LinksTo(p, d, c, At(p.top, c));
      }
    }
  }

  lemma NotInLayer(p: Plan, r: Path, name: Name)
    requires Buildable(p) && Stance(p, Inside(r)) && !InLayer(p, r + [name], p.Layers())
    requires r + [name] !in p.Above() && r + [name] !in p.substitutes
    ensures r in p.Above() && p.IsThereDir(r) && p.Plain(r + [name])
  {
    var c := r + [name];
    assert Parent(c) == r;
    if r !in p.Above() {
      var m :| m in p.Layers() && Under(m, r);
      assert Under(m, c);
    }
    assert Under(c, c);
  }

  lemma UpInside(p: Plan, r: Path)
    requires Geometry(p) && Stance(p, Inside(r)) && r != []
    ensures Stance(p, Inside(Parent(r))) && At(p.view, r) != [] && Parent(At(p.view, r)) == At(p.view, Parent(r))
  {
    AtRel(p.view, r);
    AtRel(p.top, r);
    if r in p.Above() {
      PrefixAbove(p, r, Parent(r));
    } else {
      var m :| m in p.Layers() && Under(m, r);
      if m == r {
        InAbove(p, m, |m| - 1);
      } else {
        assert Under(m, Parent(r));
      }
    }
  }

  /** An absolute link to a directory's entry leads there. */
  lemma {:induction false} WalkDown(nodes: map<Path, Node>, p: Path, k: nat, rest: seq<Step>, links: nat)
    requires Rooted(nodes) && IsDir(nodes, p) && k <= |p|
    ensures Walk(nodes, p[..k], Downs(p[k..]) + rest, links) == Walk(nodes, p, rest, links)
    decreases |p| - k
  {
    var steps := Downs(p[k..]) + rest;
    if k == |p| {
      assert p[..k] == p && steps == rest;
    } else {
      assert steps[0] == Down(p[k]);
      assert p[k..][1..] == p[k + 1..];
      assert steps[1..] == Downs(p[k + 1..]) + rest;
      assert p[..k] + [p[k]] == p[..k + 1];
      if k + 1 < |p| {
        AncestorIsDir(nodes, p, k + 1);
      } else {
        assert p[..k + 1] == p;
      }
      WalkDown(nodes, p, k + 1, rest, links);
    }
  }

  lemma DownsEntry(q: Path, name: Name, rest: seq<Step>)
    ensures Downs(q + [name]) + rest == Downs(q) + ([Down(name)] + rest)
  {
    hide Downs;
    var whole := q + [name];
    assert Downs(whole) == Downs(q) + [Down(name)] by {
      assert forall i :: 0 <= i < |q| ==> whole[i] == q[i];
    }
    assert Downs(q) + [Down(name)] + rest == Downs(q) + ([Down(name)] + rest);
  }

  lemma WalkToEntry(nodes: map<Path, Node>, q: Path, name: Name, rest: seq<Step>, links: nat)
    requires Rooted(nodes) && IsDir(nodes, q)
    ensures Walk(nodes, [], Downs(q + [name]) + rest, links) == Walk(nodes, q, [Down(name)] + rest, links)
  {
    WalkDown(nodes, q, 0, [Down(name)] + rest, links);
    hide Downs;
    hide Walk;
    hide Rooted;
    assert q[..0] == [] && q[0..] == q;
    DownsEntry(q, name, rest);
  }

  lemma Basics(p: Plan, d: Disk)
    requires Ready(p, d)
    ensures Geometry(p) && Buildable(p) && p.view != [] && Stance(p, Outside([])) && Stance(p, Inside([]))
  {
  }

  lemma StillDir(p: Plan, d: Disk, o: Path)
    requires Ready(p, d) && Stance(p, Outside(o))
    ensures IsDir(d.nodes, o) && Rooted(d.nodes) && Stance(p, Outside(if o == [] then [] else Parent(o)))
  {
  }

  lemma StepUp(p: Plan, d: Disk, at: Place, steps: seq<Step>, links: nat)
    requires Ready(p, d) && Stance(p, at) && steps != [] && steps[0] == Up
    ensures Follows(p, d, Continue(d.nodes, Resolve(d.nodes, InView(p, at), steps, links)),
        OneStep(p, at, steps, links))
  {
    hide Ready;
    hide Stance;
    hide Geometry;
    hide Buildable;
    hide Grows;
    hide Rooted;
    hide Walk;
    hide Downs;
    hide Plan.Above;
    hide InLayer;
    Basics(p, d);
    match at
    case Inside(r) =>
      if r == [] {
        assert At(p.view, []) == p.view;
      } else {
        UpInside(p, r);
      }
    case Outside(o) =>
      StillDir(p, d, o);
  }

  lemma StepDownInside(p: Plan, d: Disk, r: Path, name: Name, steps: seq<Step>, links: nat)
    requires Ready(p, d) && Stance(p, Inside(r)) && steps != [] && steps[0] == Down(name)
    ensures Follows(p, d, Continue(d.nodes, Resolve(d.nodes, At(p.view, r), steps, links)),
        OneStep(p, Inside(r), steps, links))
  {
    hide Ready;
    hide Stance;
    hide Geometry;
    hide Buildable;
    hide Grows;
    hide Rooted;
    hide Walk;
    hide Downs;
    hide Plan.Above;
    hide InLayer;
    Basics(p, d);
    DownInside(p, d, r, name);
    var c, rest := r + [name], steps[1..];
    if c !in p.substitutes && c !in p.Above() && p.There(c) && !InLayer(p, c, p.Layers()) && links > 0 {
      var q := At(p.top, r);
      StillDir(p, d, q);
      WalkToEntry(d.nodes, q, name, rest, links - 1);
      assert steps == [Down(name)] + rest;
      assert At(p.top, c) == q + [name];
    }
  }

  /** One name down, outside: the original, except at the view's own name. */
  lemma DownOutside(p: Plan, d: Disk, o: Path, name: Name)
    requires Ready(p, d) && Stance(p, Outside(o))
    ensures var c := o + [name];
            if c == p.view then IsDir(d.nodes, c)
            else (c in d.nodes <==> c in p.before.nodes)
                 && (c in d.nodes ==> d.nodes[c] == p.before.nodes[c])
                 && (IsDir(p.before.nodes, c) ==> Stance(p, Outside(c)))
  {
    hide Sound;
    var c := o + [name];
    assert At(p.view, []) == p.view;
    if Under(p.view, c) && c != p.view {
      ParentUnder(p.view, o, name);
    }
  }

  lemma ParentUnder(root: Path, o: Path, name: Name)
    requires Under(root, o + [name]) && root != o + [name]
    ensures Under(root, o)
  {
    assert root == (o + [name])[..|root|] == o[..|root|];
  }

  lemma StepDownOutside(p: Plan, d: Disk, o: Path, name: Name, steps: seq<Step>, links: nat)
    requires Ready(p, d) && Stance(p, Outside(o)) && steps != [] && steps[0] == Down(name)
    ensures Follows(p, d, Continue(d.nodes, Resolve(d.nodes, o, steps, links)), OneStep(p, Outside(o), steps, links))
  {
    hide Ready;
    hide Stance;
    hide Geometry;
    hide Buildable;
    hide Grows;
    hide Rooted;
    hide Walk;
    hide Downs;
    hide Plan.Above;
    hide InLayer;
    Basics(p, d);
    DownOutside(p, d, o, name);
  }

  /** The whole walk: whatever is asked of the finished view, `..` and links
      included, goes where the route says. */
  lemma {:induction false} RouteIsWalk(p: Plan, d: Disk, at: Place, steps: seq<Step>, links: nat)
    requires Ready(p, d) && Stance(p, at)
    ensures Follows(p, d, Walk(d.nodes, InView(p, at), steps, links), Route(p, at, steps, links))
    decreases links, |steps|
  {
    hide Ready;
    hide Stance;
    hide OneStep;
    if steps != [] {
      match (at, steps[0]) {
        case (_, Up) => StepUp(p, d, at, steps, links);
        case (Inside(r), Down(name)) => StepDownInside(p, d, r, name, steps, links);
        case (Outside(o), Down(name)) => StepDownOutside(p, d, o, name, steps, links);
      }
      var next := OneStep(p, at, steps, links);
      if next.On? {
        RouteIsWalk(p, d, next.place, next.steps, next.links);
      }
    } else {
      StanceLands(p, at);
    }
  }

  lemma StanceLands(p: Plan, at: Place)
    requires Stance(p, at)
    ensures Landing(p, at)
  {
  }

  // ---- nothing is lost -----------------------------------------------------------

  /** What a walk through the original found, the same walk through the view
      finds, one more link allowed - unless it enters the substitute or climbs
      out of the top directory. */
  ghost predicate Finds(p: Plan, found: Path, route: Outcome) {
    match route
    case Lands(place) => InOriginal(p, place) == found
    case IntoSubstitute(_, _, _) => true
    case AboveView(_, _) => true
    case BackIntoView(_, _) => false
    case Lost => false
    case On(_, _, _) => false
  }

  function Bonus(at: Place): nat {
    if at.Inside? then 1 else 0
  }

  /** One component the original can take, on both sides: either they move
      together, or the view alone leaves through the link of a plain entry. */
  ghost predicate Abreast(p: Plan, at: Place, steps: seq<Step>, links: nat, m: Move, o: Outcome) {
    m == End(None) || match o
    case On(place, more, budget) =>
      && Stance(p, place)
      && (|| (at.Inside? && place == Outside(InOriginal(p, at)) && more == steps && budget >= links)
          || (m.To? && m.cur == InOriginal(p, place) && m.steps == more && budget >= m.links + Bonus(place)))
    case Lands(place) => m == End(Some(InOriginal(p, place)))
    case IntoSubstitute(_, _, _) => true
    case AboveView(_, _) => true
    case BackIntoView(_, _) => false
    case Lost => false
  }

  lemma AbreastUp(p: Plan, at: Place, steps: seq<Step>, links: nat, budget: nat)
    requires Geometry(p) && Stance(p, at) && budget >= links + Bonus(at) && steps != [] && steps[0] == Up
    ensures Abreast(p, at, steps, links, Resolve(p.before.nodes, InOriginal(p, at), steps, links),
        OneStep(p, at, steps, budget))
  {
    match at
    case Inside(r) =>
      if r != [] {
        UpInside(p, r);
        AtRel(p.top, r);
      }
    case Outside(o) =>
      assert Stance(p, Outside(if o == [] then [] else Parent(o)));
  }

  lemma AbreastInside(p: Plan, r: Path, name: Name, steps: seq<Step>, links: nat, budget: nat)
    requires Geometry(p) && Buildable(p) && Stance(p, Inside(r)) && budget >= links + 1 && steps != []
        && steps[0] == Down(name)
    ensures Abreast(p, Inside(r), steps, links, Resolve(p.before.nodes, At(p.top, r), steps, links),
                    OneStep(p, Inside(r), steps, budget))
  {
    hide Geometry;
    hide Buildable;
    hide Stance;
    hide Plan.Above;
    hide InLayer;
    assert At(p.top, r) + [name] == At(p.top, r + [name]);
    OriginalInside(p, r, name);
  }

  lemma OriginalInside(p: Plan, r: Path, name: Name)
    requires Geometry(p) && Buildable(p) && Stance(p, Inside(r))
    ensures Stance(p, Outside([]))
    ensures var c := r + [name];
            && (c in p.Above() ==> p.IsThereDir(c) && Stance(p, Inside(c)))
            && (InLayer(p, c, p.Layers()) && p.IsThereDir(c) ==> Stance(p, Inside(c)))
            && (c !in p.Above() && c !in p.substitutes && !InLayer(p, c, p.Layers()) ==>
              Stance(p, Outside(At(p.top, r))))
  {
    hide Sound;
    var c := r + [name];
    if c !in p.Above() && c !in p.substitutes && !InLayer(p, c, p.Layers()) {
      NotInLayer(p, r, name);
    }
    RootStance(p);
  }

  lemma AbreastOutside(p: Plan, o: Path, name: Name, steps: seq<Step>, links: nat, budget: nat)
    requires Geometry(p) && Stance(p, Outside(o)) && budget >= links && steps != [] && steps[0] == Down(name)
    ensures Abreast(p, Outside(o), steps, links, Resolve(p.before.nodes, o, steps, links),
        OneStep(p, Outside(o), steps, budget))
  {
    hide Sound;
    RootStance(p);
    ViewIsNew(p);
  }

  lemma ViewIsNew(p: Plan)
    requires Geometry(p)
    ensures p.view !in p.before.nodes
  {
    assert Under(p.view, p.view);
  }

  lemma RootStance(p: Plan)
    requires Geometry(p)
    ensures Stance(p, Outside([]))
  {
  }

  lemma {:induction false} FoundInView(p: Plan, at: Place, steps: seq<Step>, links: nat, budget: nat)
    requires Geometry(p) && Buildable(p) && Stance(p, at) && budget >= links + Bonus(at)
    requires Walk(p.before.nodes, InOriginal(p, at), steps, links).Some?
    ensures Finds(p, Walk(p.before.nodes, InOriginal(p, at), steps, links).value, Route(p, at, steps, budget))
    decreases links, |steps|, Bonus(at)
  {
    hide Geometry;
    hide Buildable;
    hide Stance;
    hide OneStep;
    hide Resolve;
    if steps != [] {
      match (at, steps[0]) {
        case (_, Up) => AbreastUp(p, at, steps, links, budget);
        case (Inside(r), Down(name)) => AbreastInside(p, r, name, steps, links, budget);
        case (Outside(o), Down(name)) => AbreastOutside(p, o, name, steps, links, budget);
      }
      var m, o := Resolve(p.before.nodes, InOriginal(p, at), steps, links), OneStep(p, at, steps, budget);
      if o.On? {
        if at.Inside? && o.place == Outside(InOriginal(p, at)) && o.steps == steps && o.links >= links {
          FoundInView(p, o.place, steps, links, o.links);
        } else {
          FoundInView(p, o.place, m.steps, m.links, o.links);
        }
      }
    }
  }

  // ---- nothing is invented -------------------------------------------------------

  /** One component the view can take, on both sides. */
  ghost predicate Behind(p: Plan, at: Place, steps: seq<Step>, links: nat, m: Move, o: Outcome) {
    match o
    case On(place, more, budget) =>
      && Stance(p, place)
      && (|| (at.Inside? && place == Outside(InOriginal(p, at)) && more == steps && links >= budget)
          || (m.To? && m.cur == InOriginal(p, place) && m.steps == more && m.links >= budget))
    case Lands(place) => m == End(Some(InOriginal(p, place)))
    case IntoSubstitute(_, _, _) => true
    case AboveView(_, _) => true
    case BackIntoView(_, _) => true
    case Lost => true
  }

  lemma BehindUp(p: Plan, at: Place, steps: seq<Step>, links: nat, budget: nat)
    requires Geometry(p) && Stance(p, at) && links >= budget && steps != [] && steps[0] == Up
    ensures Behind(p, at, steps, links, Resolve(p.before.nodes, InOriginal(p, at), steps, links),
        OneStep(p, at, steps, budget))
  {
    match at
    case Inside(r) =>
      if r != [] {
        UpInside(p, r);
        AtRel(p.top, r);
      }
    case Outside(o) =>
      assert Stance(p, Outside(if o == [] then [] else Parent(o)));
  }

  lemma BehindInside(p: Plan, r: Path, name: Name, steps: seq<Step>, links: nat, budget: nat)
    requires Geometry(p) && Buildable(p) && Stance(p, Inside(r)) && links >= budget && steps != []
        && steps[0] == Down(name)
    ensures Behind(p, Inside(r), steps, links, Resolve(p.before.nodes, At(p.top, r), steps, links),
                   OneStep(p, Inside(r), steps, budget))
  {
    hide Geometry;
    hide Buildable;
    hide Stance;
    hide Plan.Above;
    hide InLayer;
    assert At(p.top, r) + [name] == At(p.top, r + [name]);
    OriginalInside(p, r, name);
  }

  lemma BehindOutside(p: Plan, o: Path, name: Name, steps: seq<Step>, links: nat, budget: nat)
    requires Geometry(p) && Stance(p, Outside(o)) && links >= budget && steps != [] && steps[0] == Down(name)
    ensures Behind(p, Outside(o), steps, links, Resolve(p.before.nodes, o, steps, links),
        OneStep(p, Outside(o), steps, budget))
  {
    hide Sound;
    RootStance(p);
  }

  /** Where a walk through the view lands, the same walk through the original was. */
  lemma {:induction false} LandsWhereItWas(p: Plan, at: Place, steps: seq<Step>, links: nat, budget: nat)
    requires Geometry(p) && Buildable(p) && Stance(p, at) && links >= budget
    requires Route(p, at, steps, budget).Lands?
    ensures Walk(p.before.nodes, InOriginal(p, at), steps, links)
            == Some(InOriginal(p, Route(p, at, steps, budget).place))
    decreases budget, |steps|
  {
    hide Geometry;
    hide Buildable;
    hide Stance;
    hide OneStep;
    hide Resolve;
    if steps != [] {
      match (at, steps[0]) {
        case (_, Up) => BehindUp(p, at, steps, links, budget);
        case (Inside(r), Down(name)) => BehindInside(p, r, name, steps, links, budget);
        case (Outside(o), Down(name)) => BehindOutside(p, o, name, steps, links, budget);
      }
      var m, o := Resolve(p.before.nodes, InOriginal(p, at), steps, links), OneStep(p, at, steps, budget);
      if o.On? {
        if at.Inside? && o.place == Outside(InOriginal(p, at)) && o.steps == steps && links >= o.links {
          LandsWhereItWas(p, o.place, o.steps, links, o.links);
        } else {
          LandsWhereItWas(p, o.place, o.steps, m.links, o.links);
        }
      }
    }
  }

  // ---- what is read ----------------------------------------------------------------

  /** In a fresh view every place shows what the original shows: the same
      directory, or the same bytes - a patched layer's in an inode of its own,
      everything outside in the original's. */
  lemma SameBytes(p: Plan, d: Disk, at: Place)
    requires Ready(p, d) && Landing(p, at)
    ensures InOriginal(p, at) in p.before.nodes && InView(p, at) in d.nodes
    ensures p.before.nodes[InOriginal(p, at)] == Dir ==> d.nodes[InView(p, at)] == Dir
    ensures p.before.nodes[InOriginal(p, at)].File? ==>
              var i, n := p.before.nodes[InOriginal(p, at)].ino, d.nodes[InView(p, at)];
              && n.File? && i in p.before.bytes && n.ino in d.bytes && d.bytes[n.ino] == p.before.bytes[i]
              && (at.Outside? ==> n.ino == i)
              && (at.Inside? && InLayer(p, at.r, p.copied) ==> n.ino >= p.before.next)
  {
    match at
    case Outside(o) =>
    case Inside(r) =>
      if r !in p.Above() {
        var m :| m in p.Layers() && Under(m, r);
        InsideLayer(p, d, m, r);
      }
  }

  lemma InsideLayer(p: Plan, d: Disk, m: Path, r: Path)
    requires Geometry(p) && ViewOf(p, d) && m in p.Layers() && Under(m, r) && p.There(r)
    ensures Stands(p, d, r, m in p.shadowed)
    ensures InLayer(p, r, p.copied) ==> m in p.copied && m !in p.shadowed
  {
    hide Sound;
    assert WorkspaceView.Complete(p, d, m);
    if InLayer(p, r, p.copied) {
      var c :| c in p.copied && Under(c, r);
      InsideRoot(p, m, r);
    }
  }

  /** Writing to a file of a patched copy reaches no file of the original. */
  lemma PatchIsIsolated(p: Plan, d: Disk, r: Path, q: Path)
    requires Ready(p, d) && p.There(r) && InLayer(p, r, p.copied) && p.before.nodes[At(p.top, r)].File?
    requires q in p.before.nodes && p.before.nodes[q].File?
    ensures At(p.view, r) in d.nodes && d.nodes[At(p.view, r)].File?
    ensures q in d.nodes && d.nodes[q] == p.before.nodes[q] && d.nodes[q].ino != d.nodes[At(p.view, r)].ino
  {
    var m :| m in p.copied && Under(m, r);
    assert InLayer(p, r, p.Layers());
    SameBytes(p, d, Inside(r));
  }

  /** What applying a patch does to a name of a patched layer: writes a file or
      makes one, removes, renames, makes and removes directories. */
  datatype Edit =
    | Write(r: Path, content: Content)
    | Remove(r: Path)
    | Rename(r: Path, to: Path)
    | MakeDir(r: Path)

  predicate Patched(p: Plan, d: Disk, r: Path) {
    InLayer(p, r, p.copied) && At(p.view, r) != [] && IsDir(d.nodes, Parent(At(p.view, r)))
  }

  predicate EditOk(p: Plan, d: Disk, e: Edit) {
    && Patched(p, d, e.r)
    && var q := At(p.view, e.r);
       match e
       case Write(_, _) => q !in d.nodes || d.nodes[q].File?
       case Remove(_) => q in d.nodes && (d.nodes[q] == Dir ==> Listing(d.nodes, q) == {})
       case Rename(_, to) => q in d.nodes && d.nodes[q] != Dir && Patched(p, d, to) && !IsDir(d.nodes, At(p.view, to))
       case MakeDir(_) => q !in d.nodes
  }

  function Edited(p: Plan, d: Disk, e: Edit): Disk
    requires EditOk(p, d, e)
  {
    var q := At(p.view, e.r);
    match e
    case Write(_, content) =>
      if q in d.nodes then d.(bytes := d.bytes[d.nodes[q].ino := content])
      else Disk(d.nodes[q := File(d.next)], d.bytes[d.next := content], d.next + 1)
    case Remove(_) => d.(nodes := d.nodes - {q})
    case Rename(_, to) => d.(nodes := (d.nodes - {q})[At(p.view, to) := d.nodes[q]])
    case MakeDir(_) => d.(nodes := d.nodes[q := Dir])
  }

  ghost predicate Edits(p: Plan, d: Disk, edits: seq<Edit>, d': Disk)
    decreases |edits|
  {
    if edits == [] then d == d' else EditOk(p, d, edits[0]) && Edits(p, Edited(p, d, edits[0]), edits[1..], d')
  }

  /** The original is as it was, and no file of a patched layer shares an inode
      with it. */
  ghost predicate Isolated(p: Plan, d: Disk) {
    && Grows(p.before, d)
    && forall r :: InLayer(p, r, p.copied) && At(p.view, r) in d.nodes && d.nodes[At(p.view, r)].File? ==>
         p.before.next <= d.nodes[At(p.view, r)].ino
  }

  lemma ViewIsIsolated(p: Plan, d: Disk)
    requires Ready(p, d)
    ensures Isolated(p, d)
  {
    forall r | InLayer(p, r, p.copied) && At(p.view, r) in d.nodes && d.nodes[At(p.view, r)].File?
      ensures p.before.next <= d.nodes[At(p.view, r)].ino
    {
      var m :| m in p.copied && Under(m, r);
      assert Under(p.view, At(p.view, r)) && Rel(p.view, At(p.view, r)) == r;
      assert p.There(r);
      InsideLayer(p, d, m, r);
    }
  }

  lemma EditIsolates(p: Plan, d: Disk, e: Edit)
    requires Geometry(p) && Isolated(p, d) && EditOk(p, d, e)
    ensures Isolated(p, Edited(p, d, e))
  {
    var d', q := Edited(p, d, e), At(p.view, e.r);
    assert Under(p.view, q) && q !in p.before.nodes;
    if e.Rename? {
      assert Under(p.view, At(p.view, e.to)) && At(p.view, e.to) !in p.before.nodes;
    }
    hide InLayer;
    hide Geometry;
    assert Grows(p.before, d');
  }

  lemma {:induction false} EditsIsolate(p: Plan, d: Disk, edits: seq<Edit>, d': Disk)
    requires Geometry(p) && Isolated(p, d) && Edits(p, d, edits, d')
    ensures Isolated(p, d')
    decreases |edits|
  {
    if edits != [] {
      EditIsolates(p, d, edits[0]);
      EditsIsolate(p, Edited(p, d, edits[0]), edits[1..], d');
    }
  }

  /** Whatever the patches write, make, remove and rename in the patched layers,
      the original keeps every name, what it is, and every byte. */
  lemma OriginalsSurvive(p: Plan, d: Disk, edits: seq<Edit>, d': Disk, q: Path)
    requires Ready(p, d) && Edits(p, d, edits, d') && q in p.before.nodes
    ensures q in d'.nodes && d'.nodes[q] == p.before.nodes[q]
    ensures p.before.nodes[q].File? ==>
              var ino := p.before.nodes[q].ino;
              ino in p.before.bytes && ino in d'.bytes && d'.bytes[ino] == p.before.bytes[ino]
  {
    ViewIsIsolated(p, d);
    EditsIsolate(p, d, edits, d');
  }

  /** A hard-linked mirror is not isolated: one write is seen at both names. */
  lemma MirrorIsShared(p: Plan, d: Disk, r: Path)
    requires Ready(p, d) && p.There(r) && InLayer(p, r, p.shadowed) && p.before.nodes[At(p.top, r)].File?
    requires p.linkable(At(p.top, r))
    ensures At(p.view, r) in d.nodes && d.nodes[At(p.view, r)] == d.nodes[At(p.top, r)]
  {
    var m :| m in p.shadowed && Under(m, r);
    InsideLayer(p, d, m, r);
  }

  // ---- literal paths -----------------------------------------------------------------

  /** A node a literal path can be followed to, and past if it is a directory. */
  predicate Followed(nodes: map<Path, Node>, q: Path, rest: seq<Step>) {
    q in nodes && (nodes[q] == Dir || (nodes[q].File? && rest == []))
  }

  /** A path through real directories of the original, outside the view. */
  lemma {:induction false} LiteralOutside(p: Plan, q: Path, k: nat, rest: seq<Step>, links: nat)
    requires Geometry(p) && Followed(p.before.nodes, q, rest) && k <= |q|
    ensures Route(p, Outside(q[..k]), Downs(q[k..]) + rest, links) == Route(p, Outside(q), rest, links)
    decreases |q| - k
  {
    ViewIsNew(p);
    hide Geometry;
    hide Downs;
    var steps := Downs(q[k..]) + rest;
    if k == |q| {
      assert q[..k] == q && steps == rest;
    } else {
      Peel(q, k, rest);
      PrefixNode(p.before.nodes, q, k + 1);
      if k + 1 < |q| || p.before.nodes[q] == Dir {
        assert q[..|q|] == q;
        LiteralOutside(p, q, k + 1, rest, links);
      } else {
        assert q[..k + 1] == q && Downs(q[k + 1..]) + rest == [];
      }
    }
  }

  /** The first component of a literal path, and the others. */
  lemma Peel(q: Path, k: nat, rest: seq<Step>)
    requires k < |q|
    ensures var steps := Downs(q[k..]) + rest;
            && steps != [] && steps[0] == Down(q[k]) && steps[1..] == Downs(q[k + 1..]) + rest
    ensures q[..k] + [q[k]] == q[..k + 1]
  {
    hide Downs;
    assert Downs(q[k..])[1..] == Downs(q[k + 1..]);
  }

  lemma PrefixNode(nodes: map<Path, Node>, q: Path, k: nat)
    requires Rooted(nodes) && q in nodes && k <= |q|
    ensures q[..k] in nodes && (k < |q| ==> nodes[q[..k]] == Dir)
  {
    if k < |q| {
      AncestorIsDir(nodes, q, k);
    } else {
      assert q[..k] == q;
    }
  }

  predicate OwnTree(p: Plan, r: Path) {
    r in p.Above() || InLayer(p, r, p.Layers())
  }

  /** What leads to one of the view's own trees is its own. */
  lemma OwnPrefix(p: Plan, r: Path, k: nat)
    requires OwnTree(p, r) && k <= |r|
    ensures OwnTree(p, r[..k])
  {
    if r in p.Above() {
      PrefixAbove(p, r, r[..k]);
    } else {
      var m :| m in p.Layers() && Under(m, r);
      if |m| <= k {
        assert Under(m, r[..k]);
      } else {
        assert r[..k] == m[..k];
        InAbove(p, m, k);
      }
    }
  }

  lemma LiteralStep(p: Plan, r: Path, k: nat, rest: seq<Step>, links: nat)
    requires Geometry(p) && Buildable(p) && Followed(p.before.nodes, At(p.top, r), rest) && k < |r|
    requires forall s :: s in p.substitutes ==> !Under(s, r)
    ensures var c, steps := r[..k + 1], Downs(r[k..]) + rest;
            var o := OneStep(p, Inside(r[..k]), steps, links + 1);
            if !OwnTree(p, c) then o == On(Outside(At(p.top, r[..k])), steps, links)
            else if k + 1 == |r| && p.before.nodes[At(p.top, r)] != Dir then o == Lands(Inside(r)) && rest == []
            else o == On(Inside(c), Downs(r[k + 1..]) + rest, links + 1)
  {
    hide Geometry;
    hide Buildable;
    hide Plan.Above;
    hide InLayer;
    hide Downs;
    hide Followed;
    LiteralAt(p, r, k, rest);
    Peel(r, k, rest);
    assert Parent(r[..k + 1]) == r[..k];
  }

  lemma LiteralAt(p: Plan, r: Path, k: nat, rest: seq<Step>)
    requires Geometry(p) && Buildable(p) && Followed(p.before.nodes, At(p.top, r), rest) && k < |r|
    requires forall s :: s in p.substitutes ==> !Under(s, r)
    ensures var c := r[..k + 1];
            && p.There(c) && c !in p.substitutes
            && (k + 1 < |r| ==> p.IsThereDir(c))
            && (k + 1 == |r| ==> c == r && Downs(r[k + 1..]) + rest == rest
                                 && (p.IsThereDir(r) || (p.before.nodes[At(p.top, r)].File? && rest == []
                                   && r !in p.Above())))
  {
    hide Plan.Above;
    hide InLayer;
    hide Downs;
    RootedBefore(p);
    hide Geometry;
    LiteralThere(p.before.nodes, p.top, r, k);
    assert Under(r[..k + 1], r);
    if k + 1 == |r| {
      assert r[..k + 1] == r;
      if p.before.nodes[At(p.top, r)] != Dir {
        LeafIsNotAbove(p, r);
      }
    }
  }

  lemma RootedBefore(p: Plan)
    requires Geometry(p)
    ensures Rooted(p.before.nodes)
  {
  }

  lemma LiteralThere(nodes: map<Path, Node>, top: Path, r: Path, k: nat)
    requires Rooted(nodes) && At(top, r) in nodes && k < |r|
    ensures At(top, r[..k + 1]) in nodes && (k + 1 < |r| ==> nodes[At(top, r[..k + 1])] == Dir)
  {
    assert At(top, r)[..|top| + k + 1] == At(top, r[..k + 1]);
    PrefixNode(nodes, At(top, r), |top| + k + 1);
  }

  /** A literal path that meets no substitute: inside for the view's own trees,
      and past them one link spent and the original. */
  lemma {:induction false} LiteralInside(p: Plan, r: Path, k: nat, rest: seq<Step>, links: nat)
    requires Geometry(p) && Buildable(p) && Followed(p.before.nodes, At(p.top, r), rest) && k <= |r|
    requires forall s :: s in p.substitutes ==> !Under(s, r)
    ensures OwnTree(p, r[..k]) ==>
              Route(p, Inside(r[..k]), Downs(r[k..]) + rest, links + 1)
              == if OwnTree(p, r) then Route(p, Inside(r), rest, links + 1)
                else Route(p, Outside(At(p.top, r)), rest, links)
    decreases |r| - k
  {
    hide Geometry;
    hide Buildable;
    hide OwnTree;
    hide OneStep;
    hide Downs;
    if k == |r| {
      assert r[..k] == r && Downs(r[k..]) + rest == rest;
    } else {
      LiteralStep(p, r, k, rest, links);
      if OwnTree(p, r[..k + 1]) {
        if k + 1 == |r| {
          assert r[..k + 1] == r;
        }
        LiteralInside(p, r, k + 1, rest, links);
      } else {
        if OwnTree(p, r) {
          OwnPrefix(p, r, k + 1);
        }
        var q := At(p.top, r);
        assert q[..|p.top| + k] == At(p.top, r[..k]) && q[|p.top| + k..] == r[k..];
        LiteralOutside(p, q, |p.top| + k, rest, links);
      }
    }
  }

  lemma LeafIsNotAbove(p: Plan, c: Path)
    requires Buildable(p) && p.There(c) && !p.IsThereDir(c)
    ensures c !in p.Above()
  {
  }

  lemma {:induction false} LiteralSubstitute(p: Plan, s: Path, k: nat, rest: seq<Step>, links: nat)
    requires Geometry(p) && s in p.substitutes && k < |s|
    ensures Route(p, Inside(s[..k]), Downs(s[k..]) + rest, links) == IntoSubstitute(s, rest, links)
    decreases |s| - k
  {
    Peel(s, k, rest);
    if k + 1 == |s| {
      assert s[..k + 1] == s && Downs(s[k + 1..]) + rest == rest;
    } else {
      InAbove(p, s, k + 1);
      if s[..k + 1] in p.substitutes {
        NotAbove(p, s[..k + 1], s[..k + 1]);
      }
      LiteralSubstitute(p, s, k + 1, rest, links);
    }
  }

  /** Every workspace path, through the finished view: the SDK below the
      manifest directory, the view's own tree in a layer, the original elsewhere. */
  lemma WorkspacePath(p: Plan, d: Disk, r: Path)
    requires Ready(p, d)
    requires p.There(r) && !p.before.nodes[At(p.top, r)].Link? && forall s :: s in p.substitutes ==> !Under(s, r)
    ensures Walk(d.nodes, p.view, Downs(r), 1) == Some(if OwnTree(p, r) then At(p.view, r) else At(p.top, r))
  {
    Basics(p, d);
    hide Ready;
    hide Stance;
    LiteralRoute(p, r);
    assert At(p.view, []) == p.view;
    RouteIsWalk(p, d, Inside([]), Downs(r), 1);
  }

  lemma LiteralRoute(p: Plan, r: Path)
    requires Geometry(p) && Buildable(p)
    requires p.There(r) && !p.before.nodes[At(p.top, r)].Link? && forall s :: s in p.substitutes ==> !Under(s, r)
    ensures Route(p, Inside([]), Downs(r), 1) == Lands(if OwnTree(p, r) then Inside(r) else Outside(At(p.top, r)))
  {
    hide Geometry;
    hide Buildable;
    hide Downs;
    hide OneStep;
    assert r[..0] == [] && r[0..] == r && Downs(r) + [] == Downs(r);
    LiteralInside(p, r, 0, [], 0);
  }

  lemma ManifestPath(p: Plan, d: Disk, s: Path, rest: seq<Step>, links: nat)
    requires Ready(p, d) && s in p.substitutes
    ensures Walk(d.nodes, p.view, Downs(s) + rest, links + 1)
        == Walk(d.nodes, [], Downs(p.substitutes[s]) + rest, links)
  {
    Basics(p, d);
    assert s[..0] == [] && s[0..] == s && At(p.view, []) == p.view;
    LiteralSubstitute(p, s, 0, rest, links + 1);
    RouteIsWalk(p, d, Inside([]), Downs(s) + rest, links + 1);
  }

  // ---- the way back in ---------------------------------------------------------------

  function Ups(n: nat): (steps: seq<Step>)
    ensures |steps| == n && forall i :: 0 <= i < n ==> steps[i] == Up
  {
    seq(n, _ => Up)
  }

  lemma {:induction false} Climb(p: Plan, o: Path, n: nat, rest: seq<Step>, links: nat)
    requires n <= |o|
    ensures Route(p, Outside(o), Ups(n) + rest, links) == Route(p, Outside(o[..|o| - n]), rest, links)
    decreases n
  {
    var steps := Ups(n) + rest;
    if n == 0 {
      assert steps == rest && o[..|o|] == o;
    } else {
      assert steps[0] == Up && steps[1..] == Ups(n - 1) + rest;
      assert Parent(o)[..|o| - n] == o[..|o| - n];
      Climb(p, Parent(o), n - 1, rest, links);
    }
  }

  /** The design says a link out of the view can only ever reach the same bytes
      the view would have shown. Through any linked directory and back up, the
      original of a patched file is reached instead of its copy. */
  lemma StaleBehindAnEntry(p: Plan, d: Disk, c: Path, r: Path)
    requires Ready(p, d) && p.Plain(c) && p.IsThereDir(c)
    requires p.There(r) && p.before.nodes[At(p.top, r)].File? && InLayer(p, r, p.copied)
    ensures Walk(d.nodes, p.view, Downs(c) + (Ups(|c|) + Downs(r)), 1) == Some(At(p.top, r))
    ensures Walk(d.nodes, p.view, Downs(r), 1) == Some(At(p.view, r))
    ensures At(p.top, r) in d.nodes && At(p.view, r) in d.nodes && d.nodes[At(p.top, r)] != d.nodes[At(p.view, r)]
  {
    Basics(p, d);
    var m :| m in p.copied && Under(m, r);
    InsideRoot(p, m, r);
    assert InLayer(p, r, p.Layers());
    PatchIsIsolated(p, d, r, At(p.top, r));
    WorkspacePath(p, d, r);
    StaleRoute(p, c, r);
    assert At(p.view, []) == p.view;
    RouteIsWalk(p, d, Inside([]), Downs(c) + (Ups(|c|) + Downs(r)), 1);
  }

  lemma StaleRoute(p: Plan, c: Path, r: Path)
    requires Geometry(p) && Buildable(p) && p.Plain(c) && p.IsThereDir(c)
    requires p.There(r) && p.before.nodes[At(p.top, r)].File?
    ensures Route(p, Inside([]), Downs(c) + (Ups(|c|) + Downs(r)), 1) == Lands(Outside(At(p.top, r)))
  {
    hide OwnTree;
    hide Plan.Plain;
    hide Plan.Above;
    hide InLayer;
    hide Geometry;
    hide Buildable;
    hide Route;
    hide Ups;
    hide Downs;
    PlainIsOut(p, c);
    FromTheView(p, c, Ups(|c|) + Downs(r), 0);
    ClimbTo(p, c, Downs(r), 0);
    FromTheTop(p, r, 0);
    RouteEnds(p, Outside(At(p.top, r)), 0);
  }

  lemma FromTheView(p: Plan, r: Path, rest: seq<Step>, links: nat)
    requires Geometry(p) && Buildable(p) && Followed(p.before.nodes, At(p.top, r), rest)
    requires !OwnTree(p, r) && forall s :: s in p.substitutes ==> !Under(s, r)
    ensures Route(p, Inside([]), Downs(r) + rest, links + 1) == Route(p, Outside(At(p.top, r)), rest, links)
  {
    assert OwnTree(p, []);
    hide OwnTree;
    hide Geometry;
    hide Buildable;
    hide Route;
    hide Downs;
    assert r[..0] == [] && r[0..] == r;
    LiteralInside(p, r, 0, rest, links);
  }

  lemma ClimbTo(p: Plan, r: Path, rest: seq<Step>, links: nat)
    ensures Route(p, Outside(At(p.top, r)), Ups(|r|) + rest, links) == Route(p, Outside(p.top), rest, links)
  {
    hide Route;
    Climb(p, At(p.top, r), |r|, rest, links);
    assert At(p.top, r)[..|p.top|] == p.top;
  }

  lemma FromTheTop(p: Plan, r: Path, links: nat)
    requires Geometry(p) && Followed(p.before.nodes, At(p.top, r), [])
    ensures Route(p, Outside(p.top), Downs(r), links) == Route(p, Outside(At(p.top, r)), [], links)
  {
    hide Geometry;
    hide Route;
    hide Downs;
    var q := At(p.top, r);
    assert q[..|p.top|] == p.top && q[|p.top|..] == r && Downs(r) + [] == Downs(r);
    LiteralOutside(p, q, |p.top|, [], links);
  }

  lemma RouteEnds(p: Plan, at: Place, links: nat)
    ensures Route(p, at, [], links) == Lands(at)
  {
  }

  lemma PlainIsOut(p: Plan, c: Path)
    requires Geometry(p) && p.Plain(c)
    ensures !OwnTree(p, c) && forall s :: s in p.substitutes ==> !Under(s, c)
  {
    if InLayer(p, c, p.Layers()) {
      var m :| m in p.Layers() && Under(m, c);
      InsideRoot(p, m, c);
    }
    forall s | s in p.substitutes
      ensures !Under(s, c)
    {
      if Under(s, c) {
        InsideRoot(p, s, c);
      }
    }
  }

  /** The walk takes the link of a plain entry, or an absolute link of a layer. */
  predicate Leaves(p: Plan, r: Path, steps: seq<Step>, links: nat)
    decreases links, |steps|
  {
    steps != [] &&
    match StepInside(p, r, steps, links)
    case On(Inside(next), more, left) => Leaves(p, next, more, left)
    case On(Outside(_), _, _) => true
    case _ => false
  }

  /** Exactly then is what a walk finds the original's and not the view's: where
      it lands on a file of a patched layer, that file is stale. */
  lemma {:induction false} StaleExactly(p: Plan, d: Disk, r: Path, steps: seq<Step>, links: nat)
    requires Ready(p, d) && Stance(p, Inside(r)) && Route(p, Inside(r), steps, links).Lands?
    ensures var place := Route(p, Inside(r), steps, links).place;
            var original := InOriginal(p, place);
            && (Leaves(p, r, steps, links) <==> place.Outside?)
            && (original in p.before.nodes && p.before.nodes[original].File? && Under(p.top, original)
                && InLayer(p, Rel(p.top, original), p.copied) ==>
                  && InView(p, place) in d.nodes
                  && (d.nodes[InView(p, place)] == p.before.nodes[original] <==> Leaves(p, r, steps, links)))
  {
    LeavesIsOutside(p, d, r, steps, links);
    RouteIsWalk(p, d, Inside(r), steps, links);
    var place := Route(p, Inside(r), steps, links).place;
    SameBytes(p, d, place);
    if place.Inside? {
      AtRel(p.top, place.r);
    }
  }

  lemma {:induction false} LeavesIsOutside(p: Plan, d: Disk, r: Path, steps: seq<Step>, links: nat)
    requires Route(p, Inside(r), steps, links).Lands?
    ensures Leaves(p, r, steps, links) <==> Route(p, Inside(r), steps, links).place.Outside?
    decreases links, |steps|
  {
    if steps != [] {
      var o := StepInside(p, r, steps, links);
      if o.On? {
        if o.place.Inside? {
          LeavesIsOutside(p, d, o.place.r, o.steps, o.links);
        } else {
          OutsideStays(p, o.place.o, o.steps, o.links);
        }
      }
    }
  }

  lemma {:induction false} OutsideStays(p: Plan, o: Path, steps: seq<Step>, links: nat)
    requires Route(p, Outside(o), steps, links).Lands?
    ensures Route(p, Outside(o), steps, links).place.Outside?
    decreases links, |steps|
  {
    if steps != [] {
      var next := StepOutside(p, o, steps, links);
      if next.On? {
        OutsideStays(p, next.place.o, next.steps, next.links);
      }
    }
  }
}
