// The value view of a folder tree and the path rules of the Folder class
// (Assets/ProjectStructure/Editor/CreateProjectStructure.cs, lines 8-34).

module FolderPaths {

  /** The platform directory separator, fixed for the model. */
  const Sep: char := '/'

  /** The DirPath the Folder constructor derives: always ParentPath, a separator, then Name. */
  function JoinPath(parentPath: string, name: string): string
  {
    parentPath + [Sep] + name
  }

  /**
   * The ParentPath that Folder.Add gives a new child of a node with the given
   * ParentPath and Name: the node's own path when its ParentPath is non-empty,
   * and just its Name otherwise (the root case).
   */
  function ChildParentPath(parentPath: string, name: string): string
  {
    if |parentPath| > 0 then JoinPath(parentPath, name) else name
  }

  /** A folder node as a value: the three strings of a Folder and its ordered children. */
  datatype Tree = Node(name: string, parentPath: string, dirPath: string, children: seq<Tree>)

  /**
   * Every node's dirPath is derived by the constructor rule, and every child's
   * parentPath by the Add rule from its parent's parentPath and name.
   */
  ghost predicate WellFormed(t: Tree)
    decreases t
  {
    t.dirPath == JoinPath(t.parentPath, t.name) &&
    forall i :: 0 <= i < |t.children| ==>
      t.children[i].parentPath == ChildParentPath(t.parentPath, t.name) && WellFormed(t.children[i])
  }

  /** A non-root node's children live directly inside its dirPath. */
  lemma ChildOfInnerNode(t: Tree, i: nat)
    requires WellFormed(t) && |t.parentPath| > 0 && i < |t.children|
    ensures t.children[i].parentPath == t.dirPath
    ensures t.children[i].dirPath == JoinPath(t.dirPath, t.children[i].name)
  {
  }

  /**
   * The root quirk: a node with an empty parentPath has a dirPath that starts
   * with the separator, while its children take its bare name as parentPath,
   * so a child's parentPath is not the root's dirPath.
   */
  lemma ChildOfRootNode(t: Tree, i: nat)
    requires WellFormed(t) && t.parentPath == [] && i < |t.children|
    ensures t.dirPath == [Sep] + t.name && t.dirPath[0] == Sep
    ensures t.children[i].parentPath == t.name != t.dirPath
    ensures t.children[i].dirPath == JoinPath(t.name, t.children[i].name)
  {
    assert |t.name| < |t.dirPath|;
  }

  /** Number of nodes. */
  function Size(t: Tree): nat
    decreases t
  {
    1 + SizeAll(t.children)
  }

  function SizeAll(ts: seq<Tree>): nat
    decreases ts
  {
    if ts == [] then 0 else SizeAll(ts[..|ts| - 1]) + Size(ts[|ts| - 1])
  }

  /** The dirPaths of a tree listed in pre-order: a node, then its children's listings in order. */
  function PreOrder(t: Tree): seq<string>
    decreases t
  {
    [t.dirPath] + PreOrderAll(t.children)
  }

  function PreOrderAll(ts: seq<Tree>): seq<string>
    decreases ts
  {
    if ts == [] then [] else PreOrderAll(ts[..|ts| - 1]) + PreOrder(ts[|ts| - 1])
  }

  lemma {:induction false} PreOrderLength(t: Tree)
    ensures |PreOrder(t)| == Size(t)
    decreases t, 1
  {
    PreOrderAllLength(t.children);
  }

  lemma {:induction false} PreOrderAllLength(ts: seq<Tree>)
    ensures |PreOrderAll(ts)| == SizeAll(ts)
    decreases ts, 0
  {
    if ts != [] {
      PreOrderAllLength(ts[..|ts| - 1]);
      PreOrderLength(ts[|ts| - 1]);
    }
  }

  /** Within every node the children's names are pairwise distinct. */
  ghost predicate SiblingsDistinct(t: Tree)
    decreases t
  {
    (forall i, j :: 0 <= i < j < |t.children| ==> t.children[i].name != t.children[j].name) &&
    forall i :: 0 <= i < |t.children| ==> SiblingsDistinct(t.children[i])
  }

  // ----- The names-only shape of a tree and its instantiation by the path rules -----

  /** A folder layout given by names alone, as the builder declares it. */
  datatype Shape = Dir(name: string, kids: seq<Shape>)

  /**
   * The tree that `new Folder(s.name, parentPath)` followed by Add calls in
   * the order of s.kids (recursively) produces.
   */
  function Grow(parentPath: string, s: Shape): Tree
    decreases s
  {
    Node(s.name, parentPath, JoinPath(parentPath, s.name), GrowAll(ChildParentPath(parentPath, s.name), s.kids))
  }

  function GrowAll(parentPath: string, ks: seq<Shape>): seq<Tree>
    decreases ks
  {
    if ks == [] then [] else GrowAll(parentPath, ks[..|ks| - 1]) + [Grow(parentPath, ks[|ks| - 1])]
  }

  /**
   * The tree after one Add call per name in `kids`, in order, on the root of
   * `t`, each added subfolder then growing as its shape says.
   */
  function AddAll(t: Tree, kids: seq<Shape>): Tree
  {
    t.(children := t.children + GrowAll(ChildParentPath(t.parentPath, t.name), kids))
  }

  /** Growing one more kid appends its tree. */
  lemma GrowAllSnoc(parentPath: string, ks: seq<Shape>, j: nat)
    requires j < |ks|
    ensures GrowAll(parentPath, ks[..j + 1]) == GrowAll(parentPath, ks[..j]) + [Grow(parentPath, ks[j])]
  {
    assert ks[..j + 1][..j] == ks[..j];
  }

  /** Adding the first j + 1 kids is adding the first j, then one more grown child. */
  lemma AddAllSnoc(t: Tree, kids: seq<Shape>, j: nat)
    requires j < |kids|
    ensures AddAll(t, kids[..j + 1]) ==
            AddAll(t, kids[..j]).(children := AddAll(t, kids[..j]).children + [Grow(ChildParentPath(t.parentPath, t.name), kids[j])])
  {
    GrowAllSnoc(ChildParentPath(t.parentPath, t.name), kids, j);
  }

  /** A fresh leaf that then has its shape's kids added is the tree the whole shape grows into. */
  lemma GrowLeafThenAdd(parentPath: string, s: Shape)
    ensures AddAll(Grow(parentPath, Dir(s.name, [])), s.kids) == Grow(parentPath, s)
  {
  }

  /** Forgetting the paths of a tree. */
  function ShapeOf(t: Tree): Shape
    decreases t
  {
    Dir(t.name, ShapeOfAll(t.children))
  }

  function ShapeOfAll(ts: seq<Tree>): seq<Shape>
    decreases ts
  {
    if ts == [] then [] else ShapeOfAll(ts[..|ts| - 1]) + [ShapeOf(ts[|ts| - 1])]
  }

  function ShapeSize(s: Shape): nat
    decreases s
  {
    1 + ShapeSizeAll(s.kids)
  }

  function ShapeSizeAll(ks: seq<Shape>): nat
    decreases ks
  {
    if ks == [] then 0 else ShapeSizeAll(ks[..|ks| - 1]) + ShapeSize(ks[|ks| - 1])
  }

  function Sum(xs: seq<nat>): nat
    decreases xs
  {
    if xs == [] then 0 else xs[0] + Sum(xs[1..])
  }

  lemma {:induction false} SumSnoc(xs: seq<nat>)
    requires xs != []
    ensures Sum(xs) == Sum(xs[..|xs| - 1]) + xs[|xs| - 1]
    decreases |xs|
  {
    if |xs| > 1 {
      SumSnoc(xs[1..]);
      assert xs[1..][..|xs| - 2] == xs[..|xs| - 1][1..];
    }
  }

  /** A shape's size from the sizes of its kids, listed in order. */
  lemma ShapeSizeFromKids(s: Shape, sizes: seq<nat>)
    requires |sizes| == |s.kids|
    requires forall i :: 0 <= i < |sizes| ==> ShapeSize(s.kids[i]) == sizes[i]
    ensures ShapeSize(s) == 1 + Sum(sizes)
  {
    ShapeSizeAllFromKids(s.kids, sizes);
  }

  lemma {:induction false} ShapeSizeAllFromKids(ks: seq<Shape>, sizes: seq<nat>)
    requires |sizes| == |ks|
    requires forall i :: 0 <= i < |sizes| ==> ShapeSize(ks[i]) == sizes[i]
    ensures ShapeSizeAll(ks) == Sum(sizes)
    decreases ks
  {
    if ks != [] {
      ShapeSizeAllFromKids(ks[..|ks| - 1], sizes[..|sizes| - 1]);
      SumSnoc(sizes);
    }
  }

  ghost predicate ShapeSiblingsDistinct(s: Shape)
    decreases s
  {
    (forall i, j :: 0 <= i < j < |s.kids| ==> s.kids[i].name != s.kids[j].name) &&
    forall i :: 0 <= i < |s.kids| ==> ShapeSiblingsDistinct(s.kids[i])
  }

  lemma {:induction false} GrowAllAt(parentPath: string, ks: seq<Shape>, i: nat)
    requires i < |ks|
    ensures |GrowAll(parentPath, ks)| == |ks|
    ensures GrowAll(parentPath, ks)[i] == Grow(parentPath, ks[i])
    decreases ks
  {
    GrowAllLength(parentPath, ks);
    if i < |ks| - 1 {
      GrowAllAt(parentPath, ks[..|ks| - 1], i);
    }
  }

  lemma {:induction false} GrowAllLength(parentPath: string, ks: seq<Shape>)
    ensures |GrowAll(parentPath, ks)| == |ks|
    decreases ks
  {
    if ks != [] {
      GrowAllLength(parentPath, ks[..|ks| - 1]);
    }
  }

  /** Whatever the names, the path rules give a well-formed tree. */
  lemma {:induction false} GrowWellFormed(parentPath: string, s: Shape)
    ensures WellFormed(Grow(parentPath, s))
    decreases s
  {
    var t := Grow(parentPath, s);
    GrowAllLength(ChildParentPath(parentPath, s.name), s.kids);
    forall i | 0 <= i < |t.children|
      ensures t.children[i].parentPath == ChildParentPath(t.parentPath, t.name) && WellFormed(t.children[i])
    {
      GrowAllAt(ChildParentPath(parentPath, s.name), s.kids, i);
      GrowWellFormed(ChildParentPath(parentPath, s.name), s.kids[i]);
    }
  }

  /** Instantiating a shape and forgetting the paths again gives back the shape. */
  lemma {:induction false} ShapeOfGrow(parentPath: string, s: Shape)
    ensures ShapeOf(Grow(parentPath, s)) == s
    decreases s, 1
  {
    ShapeOfGrowAll(ChildParentPath(parentPath, s.name), s.kids);
  }

  lemma {:induction false} ShapeOfGrowAll(parentPath: string, ks: seq<Shape>)
    ensures ShapeOfAll(GrowAll(parentPath, ks)) == ks
    decreases ks, 0
  {
    if ks != [] {
      var ts := GrowAll(parentPath, ks);
      GrowAllLength(parentPath, ks[..|ks| - 1]);
      assert ts[..|ts| - 1] == GrowAll(parentPath, ks[..|ks| - 1]);
      ShapeOfGrowAll(parentPath, ks[..|ks| - 1]);
      ShapeOfGrow(parentPath, ks[|ks| - 1]);
    }
  }

  /** Instantiating a shape keeps its number of nodes. */
  lemma {:induction false} GrowSize(parentPath: string, s: Shape)
    ensures Size(Grow(parentPath, s)) == ShapeSize(s)
    decreases s, 1
  {
    GrowAllSize(ChildParentPath(parentPath, s.name), s.kids);
  }

  lemma {:induction false} GrowAllSize(parentPath: string, ks: seq<Shape>)
    ensures SizeAll(GrowAll(parentPath, ks)) == ShapeSizeAll(ks)
    decreases ks, 0
  {
    if ks != [] {
      var ts := GrowAll(parentPath, ks);
      GrowAllLength(parentPath, ks[..|ks| - 1]);
      assert ts[..|ts| - 1] == GrowAll(parentPath, ks[..|ks| - 1]);
      GrowAllSize(parentPath, ks[..|ks| - 1]);
      GrowSize(parentPath, ks[|ks| - 1]);
    }
  }

  /** Instantiating a shape keeps the sibling names of every node. */
  lemma {:induction false} GrowSiblingsDistinct(parentPath: string, s: Shape)
    requires ShapeSiblingsDistinct(s)
    ensures SiblingsDistinct(Grow(parentPath, s))
    decreases s
  {
    var t := Grow(parentPath, s);
    var pp := ChildParentPath(parentPath, s.name);
    GrowAllLength(pp, s.kids);
    forall i | 0 <= i < |t.children|
      ensures t.children[i].name == s.kids[i].name && SiblingsDistinct(t.children[i])
    {
      GrowAllAt(pp, s.kids, i);
      GrowSiblingsDistinct(pp, s.kids[i]);
    }
  }
}
