// The Folder class (CreateProjectStructure.cs, lines 8-34): a node with a
// name, the path of its parent, its own derived path and an ordered list of
// subfolders that Add appends to in place.

module FolderModel {
  import opened FolderPaths

  class Folder {
    var DirPath: string
    var ParentPath: string
    var Name: string
    var Subfolders: seq<Folder>

    /** This node and every node below it. */
    ghost var Repr: set<Folder>

    /** The constructor's path rule, which nothing re-assigns afterwards. */
    ghost predicate PathsAgree()
      reads this
    {
      DirPath == JoinPath(ParentPath, Name)
    }

    /**
     * The object graph below this node is a tree: Repr is this node and the
     * disjoint footprints of its subfolders, each of which is valid and carries
     * the ParentPath Add gives it.
     */
    ghost predicate Valid()
      reads this, Repr
      ensures Valid() ==> this in Repr
      decreases Repr, 1
    {
      this in Repr && PathsAgree() && Subtrees(Subfolders, Repr - {this}, ChildParentPath(ParentPath, Name))
    }

    /** The value this node and its subfolders stand for. */
    ghost function Model(): (t: Tree)
      reads this, Repr
      requires Valid()
      ensures t.name == Name && t.parentPath == ParentPath && t.dirPath == DirPath
      ensures |t.children| == |Subfolders|
      decreases Repr, 1
    {
      Node(Name, ParentPath, DirPath, Models(Subfolders, Repr - {this}, ChildParentPath(ParentPath, Name)))
    }

    /**
     * Each subfolder of a valid node is valid, lies strictly inside its
     * footprint, carries the ParentPath Add gives it, and is modelled by the
     * matching child.
     */
    lemma ModelChild(i: nat)
      requires Valid() && i < |Subfolders|
      ensures Subfolders[i].Valid() && Subfolders[i].Repr < Repr
      ensures Subfolders[i].ParentPath == ChildParentPath(ParentPath, Name)
      ensures Model().children[i] == Subfolders[i].Model()
    {
      SubtreesAt(Subfolders, Repr - {this}, ChildParentPath(ParentPath, Name), i);
    }

    /** `new Folder(name, dirPath)`: the second argument becomes the ParentPath. */
    constructor (name: string, dirPath: string)
      ensures Name == name && ParentPath == dirPath && DirPath == JoinPath(dirPath, name)
      ensures Subfolders == [] && Repr == {this}
      ensures Valid() && Model() == Grow(dirPath, Dir(name, []))
    {
      Name := name;
      ParentPath := dirPath;
      DirPath := ParentPath + [Sep] + Name;
      Subfolders := [];
      Repr := {this};
      new;
      assert Repr - {this} == {};
    }

    /**
     * Appends one fresh leaf named `name` and returns it. Its ParentPath is
     * ParentPath + separator + Name when this node has a ParentPath, and Name
     * alone when it does not. Nothing else changes.
     */
    method Add(name: string) returns (subfolder: Folder)
      modifies this`Subfolders
      ensures fresh(subfolder)
      ensures Subfolders == old(Subfolders) + [subfolder]
      ensures |ParentPath| > 0 ==> subfolder.ParentPath == ParentPath + [Sep] + Name
      ensures |ParentPath| == 0 ==> subfolder.ParentPath == Name
      ensures subfolder.Name == name && subfolder.DirPath == JoinPath(subfolder.ParentPath, name)
      ensures subfolder.Subfolders == [] && subfolder.Repr == {subfolder}
    {
      if |ParentPath| > 0 {
        subfolder := new Folder(name, ParentPath + [Sep] + Name);
      } else {
        subfolder := new Folder(name, Name);
      }
      Subfolders := Subfolders + [subfolder];
    }

    /** A node with no subfolders, as the constructor leaves it, is a valid leaf. */
    lemma LeafValid()
      requires PathsAgree() && Subfolders == [] && Repr == {this}
      ensures Valid() && Model() == Grow(ParentPath, Dir(Name, []))
    {
      assert Repr - {this} == {};
    }

    /**
     * Re-establishes Valid() once subfolders have grown below this node:
     * Repr becomes this node plus `below`, the subfolders' footprints.
     */
    ghost method Seal(below: set<Folder>)
      requires PathsAgree() && this !in below
      requires Subtrees(Subfolders, below, ChildParentPath(ParentPath, Name))
      modifies this`Repr
      ensures Repr == {this} + below
      ensures Valid() && Model() == Node(Name, ParentPath, DirPath, Models(Subfolders, below, ChildParentPath(ParentPath, Name)))
    {
      Repr := {this} + below;
      assert Repr - {this} == below;
    }

    /**
     * Seals a node whose subfolders are `cs`, the subfolders of the valid node
     * modelled by `before`, followed by one more subfolder `c` that has since
     * grown into a valid tree of its own, outside `below`.
     */
    ghost method SealAppended(cs: seq<Folder>, below: set<Folder>, before: Tree, c: Folder)
      requires PathsAgree() && this !in below && this !in c.Repr
      requires Subfolders == cs + [c]
      requires before.name == Name && before.parentPath == ParentPath && before.dirPath == DirPath
      requires Subtrees(cs, below, ChildParentPath(ParentPath, Name))
      requires Models(cs, below, ChildParentPath(ParentPath, Name)) == before.children
      requires c.Valid() && c.ParentPath == ChildParentPath(ParentPath, Name) && c.Repr !! below
      modifies this`Repr
      ensures Repr == {this} + below + c.Repr
      ensures Valid() && Model() == before.(children := before.children + [c.Model()])
    {
      AppendChild(cs, below, ChildParentPath(ParentPath, Name), c);
      Seal(below + c.Repr);
    }

    /** The object graph of a valid node models a well-formed tree. */
    lemma {:induction false} ModelWellFormed()
      requires Valid()
      ensures WellFormed(Model())
      decreases Repr
    {
      var t := Model();
      forall i | 0 <= i < |t.children|
        ensures t.children[i].parentPath == ChildParentPath(t.parentPath, t.name) && WellFormed(t.children[i])
      {
        ModelChild(i);
        Subfolders[i].ModelWellFormed();
      }
    }

  }

  /**
   * `below` is exactly the union of the footprints of the subfolders `cs`,
   * which are pairwise disjoint, valid, and carry the ParentPath `pp`.
   */
  ghost predicate Subtrees(cs: seq<Folder>, below: set<Folder>, pp: string)
    reads below
    decreases below, 2, |cs|
  {
    if cs == [] then below == {}
    else
      var c := cs[|cs| - 1];
      c in below && c.Repr <= below && c.ParentPath == pp && c.Valid() &&
      Subtrees(cs[..|cs| - 1], below - c.Repr, pp)
  }

  /** The models of the subfolders `cs`, in order. */
  ghost function Models(cs: seq<Folder>, below: set<Folder>, pp: string): (ts: seq<Tree>)
    reads below
    requires Subtrees(cs, below, pp)
    ensures |ts| == |cs|
    decreases below, 2, |cs|
  {
    if cs == [] then [] else
      var c := cs[|cs| - 1];
      Models(cs[..|cs| - 1], below - c.Repr, pp) + [c.Model()]
  }

  lemma {:induction false} SubtreesAt(cs: seq<Folder>, below: set<Folder>, pp: string, i: nat)
    requires Subtrees(cs, below, pp) && i < |cs|
    ensures cs[i].Valid() && cs[i].Repr <= below && cs[i].ParentPath == pp
    ensures Models(cs, below, pp)[i] == cs[i].Model()
    decreases |cs|
  {
    if i < |cs| - 1 {
      var c := cs[|cs| - 1];
      SubtreesAt(cs[..|cs| - 1], below - c.Repr, pp, i);
    }
  }

  /** Appending a valid subfolder with a fresh footprint keeps the subfolders a disjoint family and extends their models. */
  lemma AppendChild(cs: seq<Folder>, below: set<Folder>, pp: string, c: Folder)
    requires Subtrees(cs, below, pp)
    requires c.Valid() && c.ParentPath == pp && c.Repr !! below
    ensures Subtrees(cs + [c], below + c.Repr, pp)
    ensures Models(cs + [c], below + c.Repr, pp) == Models(cs, below, pp) + [c.Model()]
  {
    assert (cs + [c])[..|cs|] == cs;
    assert (below + c.Repr) - c.Repr == below;
  }
}
