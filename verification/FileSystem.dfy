/** A file system of paths, inodes and symbolic links: what os.mkdir, os.link,
    os.symlink and shutil.copy2 do to it, as far as a workspace view sees them. */
module FileSystem {
  type Name = string
  /** An absolute path, by its components; the root is the empty one. */
  type Path = seq<Name>
  type Content = seq<int>

  datatype Step = Up | Down(name: Name)

  /** The text of a symbolic link, resolved from the root or from where it is. */
  datatype Target = Target(absolute: bool, steps: seq<Step>)

  datatype Node = Dir | File(ino: nat) | Link(target: Target)

  datatype Disk = Disk(nodes: map<Path, Node>, bytes: map<nat, Content>, next: nat)

  function Parent(p: Path): Path
    requires p != []
  {
    p[..|p| - 1]
  }

  function Leaf(p: Path): Name
    requires p != []
  {
    p[|p| - 1]
  }

  function At(root: Path, relative: Path): Path {
    root + relative
  }

  predicate Under(root: Path, p: Path) {
    root <= p
  }

  function Downs(p: Path): (steps: seq<Step>)
    ensures |steps| == |p| && forall i :: 0 <= i < |p| ==> steps[i] == Down(p[i])
  {
    if p == [] then [] else [Down(p[0])] + Downs(p[1..])
  }

  /** pathlib's symlink_to an absolute path. */
  function Absolute(p: Path): Node {
    Link(Target(true, Downs(p)))
  }

  ghost predicate Rooted(nodes: map<Path, Node>) {
    && [] in nodes && nodes[[]] == Dir
    && forall p :: p in nodes && p != [] ==> Parent(p) in nodes && nodes[Parent(p)] == Dir
  }

  ghost predicate Sound(d: Disk) {
    && Rooted(d.nodes)
    && forall p :: p in d.nodes && d.nodes[p].File? ==> d.nodes[p].ino < d.next && d.nodes[p].ino in d.bytes
  }

  /** Nothing of `a` is removed, replaced or rewritten in `b`. */
  ghost predicate Grows(a: Disk, b: Disk) {
    && (forall p :: p in a.nodes ==> p in b.nodes && b.nodes[p] == a.nodes[p])
    && (forall i :: i in a.bytes && i < a.next ==> i in b.bytes && b.bytes[i] == a.bytes[i])
    && a.next <= b.next
  }

  predicate IsDir(nodes: map<Path, Node>, p: Path) {
    p in nodes && nodes[p] == Dir
  }

  /** The names in a directory. */
  function Listing(nodes: map<Path, Node>, directory: Path): (names: set<Name>)
    ensures forall n :: n in names <==> directory + [n] in nodes
  {
    var names := set p | p in nodes && p != [] && Parent(p) == directory :: Leaf(p);
    assert forall n :: directory + [n] in nodes ==> Parent(directory + [n]) == directory && Leaf(directory + [n]) == n;
    assert forall p :: p in nodes && p != [] && Parent(p) == directory ==> p == directory + [Leaf(p)];
    names
  }

  /** Every ancestor of a node is a directory. */
  lemma {:induction false} AncestorIsDir(nodes: map<Path, Node>, p: Path, k: nat)
    requires Rooted(nodes) && p in nodes && k < |p|
    ensures IsDir(nodes, p[..k])
    decreases |p|
  {
    if k < |p| - 1 {
      AncestorIsDir(nodes, Parent(p), k);
      assert Parent(p)[..k] == p[..k];
    }
  }

  class Tree {
    var nodes: map<Path, Node>
    var bytes: map<nat, Content>
    var next: nat

    ghost function Now(): Disk
      reads this
    {
      Disk(nodes, bytes, next)
    }

    constructor ()
      ensures Sound(Now()) && nodes == map[[] := Dir]
    {
      nodes, bytes, next := map[[] := Dir], map[], 0;
    }

    /** os.mkdir: the parent must be there and the name must not. */
    method Mkdir(p: Path)
      requires Sound(Now()) && p != [] && IsDir(nodes, Parent(p)) && p !in nodes
      modifies this
      ensures Sound(Now()) && Grows(old(Now()), Now())
      ensures nodes == old(nodes)[p := Dir] && bytes == old(bytes) && next == old(next)
    {
      nodes := nodes[p := Dir];
    }

    /** Path.mkdir(parents=True, exist_ok=True), where nothing but directories is
        in the way. */
    method MkdirParents(p: Path)
      requires Sound(Now())
      requires forall q :: Under(q, p) && q in nodes ==> nodes[q] == Dir
      modifies this
      ensures Sound(Now()) && Grows(old(Now()), Now())
      ensures forall q :: q in nodes <==> q in old(nodes) || Under(q, p)
      ensures forall q :: Under(q, p) ==> q in nodes && nodes[q] == Dir
      ensures bytes == old(bytes) && next == old(next)
    {
      ghost var before := nodes;
      for k := 0 to |p|
        invariant Sound(Now()) && Grows(old(Now()), Now())
        invariant forall q :: q in nodes <==> q in before || Under(q, p[..k])
        invariant forall q :: q in nodes && Under(q, p) ==> nodes[q] == Dir
        invariant bytes == old(bytes) && next == old(next)
      {
        var q := p[..k + 1];
        assert Parent(q) == p[..k];
        Longer(p, k);
        if q !in nodes {
          Mkdir(q);
        }
      }
      assert p[..|p|] == p;
    }

    /** os.symlink. */
    method Symlink(p: Path, link: Node)
      requires Sound(Now()) && p != [] && IsDir(nodes, Parent(p)) && p !in nodes && link.Link?
      modifies this
      ensures Sound(Now()) && Grows(old(Now()), Now())
      ensures nodes == old(nodes)[p := link] && bytes == old(bytes) && next == old(next)
    {
      nodes := nodes[p := link];
    }

    /** os.link, and shutil.copy2 where the link cannot be made. */
    method LinkOrCopy(source: Path, p: Path, linkable: bool)
      requires Sound(Now()) && p != [] && IsDir(nodes, Parent(p)) && p !in nodes
      requires source in nodes && nodes[source].File?
      modifies this
      ensures Sound(Now()) && Grows(old(Now()), Now())
      ensures nodes == old(nodes)[p := File(if linkable then old(nodes)[source].ino else old(next))]
      ensures p in nodes && nodes[p].ino in bytes && bytes[nodes[p].ino] == old(bytes)[old(nodes)[source].ino]
      ensures next >= old(next) && (!linkable ==> next > old(next))
    {
      var ino := nodes[source].ino;
      if linkable {
        nodes := nodes[p := File(ino)];
      } else {
        bytes := bytes[next := bytes[ino]];
        nodes := nodes[p := File(next)];
        next := next + 1;
      }
    }

    /** A write to an open file: the bytes change for every name of its inode. */
    method Write(ino: nat, content: Content)
      requires Sound(Now()) && ino in bytes
      modifies this`bytes
      ensures Sound(Now()) && bytes == old(bytes)[ino := content]
    {
      bytes := bytes[ino := content];
    }
  }

  lemma Longer(p: Path, k: nat)
    requires k < |p|
    ensures forall q :: Under(q, p[..k + 1]) <==> Under(q, p[..k]) || q == p[..k + 1]
  {
    forall q: Path | Under(q, p[..k + 1])
      ensures Under(q, p[..k]) || q == p[..k + 1]
    {
      if |q| <= k {
        assert q == p[..k + 1][..|q|] == p[..k][..|q|];
      }
    }
  }
}
