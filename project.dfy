// The CreateProjectStructure editor window's core (CreateProjectStructure.cs,
// lines 36-155): the root-name guard of Execute, the template builder and the
// CreateFolders walk. The window and its GUI are not part of this model.

module ProjectStructure {
  import opened FolderPaths
  import opened FolderModel
  import opened ProjectTemplate
  import opened FileSystemModel
  import opened Materializer
  import opened PathUniqueness

  /** What Execute reports: the refusal of an empty root name, or one result per node in walk order. */
  datatype Outcome = MissingRootName | Generated(results: seq<NodeResult>)

  /**
   * Adds below `node`, one Add call after another, the subfolders that
   * `layout.kids` lists, each growing its own kids below it in turn. `others`
   * stands for the nodes the caller holds outside this subtree; none of
   * them is drawn into it.
   */
  method AddLayout(node: Folder, layout: Shape, ghost others: set<Folder>)
    requires node.Valid() && node.Repr !! others
    modifies node`Subfolders, node`Repr
    ensures node.Valid() && node.Repr !! others
    ensures node.Model() == AddAll(old(node.Model()), layout.kids)
    decreases layout, 0
  {
    ghost var m0 := node.Model();
    assert layout.kids[..0] == [];
    var i := 0;
    while i < |layout.kids|
      invariant 0 <= i <= |layout.kids|
      invariant node.Valid() && node.Repr !! others
      invariant node.Model() == AddAll(m0, layout.kids[..i])
    {
      AddGrown(node, layout.kids[i], others);
      AddAllSnoc(m0, layout.kids, i);
      i := i + 1;
    }
    assert layout.kids[..i] == layout.kids;
  }

  /** One Add call for `kid.name` on `node`, then the kids of `kid` below the new subfolder. */
  method AddGrown(node: Folder, kid: Shape, ghost others: set<Folder>)
    requires node.Valid() && node.Repr !! others
    modifies node`Subfolders, node`Repr
    ensures node.Valid() && node.Repr !! others
    ensures node.Model() == old(node.Model()).(children := old(node.Model()).children + [Grow(ChildParentPath(node.ParentPath, node.Name), kid)])
    decreases kid, 1
  {
    ghost var pp := ChildParentPath(node.ParentPath, node.Name);
    ghost var before := node.Model();
    ghost var below := node.Repr - {node};
    ghost var cs := node.Subfolders;
    assert Subtrees(cs, below, pp) && Models(cs, below, pp) == before.children;
    var subfolder := node.Add(kid.name);
    subfolder.LeafValid();
    AddLayout(subfolder, kid, others + {node} + below);
    GrowLeafThenAdd(pp, kid);
    node.SealAppended(cs, below, before, subfolder);
  }

  lemma ConcatAssoc<T>(a: seq<T>, b: seq<T>, c: seq<T>)
    ensures a + b + c == a + (b + c)
  {
  }

  /**
   * Closes the root name's node once both branches are built: it holds the
   * branch grown from `a` and then the branch grown from `b`.
   */
  ghost method SealStructure(rootName: string, structure: Folder, art: Folder, program: Folder, a: Shape, b: Shape)
    requires structure.Name == rootName && structure.ParentPath == BaseName && structure.PathsAgree()
    requires structure.Subfolders == [art, program] && structure.Repr == {structure}
    requires art.Valid() && art.ParentPath == JoinPath(BaseName, rootName)
    requires art.Model() == AddAll(Grow(JoinPath(BaseName, rootName), Dir(a.name, [])), a.kids)
    requires program.Valid() && program.ParentPath == JoinPath(BaseName, rootName)
    requires program.Model() == AddAll(Grow(JoinPath(BaseName, rootName), Dir(b.name, [])), b.kids)
    requires art.Repr !! program.Repr && structure !in art.Repr && structure !in program.Repr
    modifies structure`Repr
    ensures structure.Repr == {structure} + art.Repr + program.Repr
    ensures structure.Valid()
    ensures structure.Model() == Node(rootName, BaseName, JoinPath(BaseName, rootName),
      [Grow(JoinPath(BaseName, rootName), a), Grow(JoinPath(BaseName, rootName), b)])
  {
    var inner := JoinPath(BaseName, rootName);
    GrowLeafThenAdd(inner, a);
    GrowLeafThenAdd(inner, b);
    AppendChild([], {}, inner, art);
    assert [] + [art] == [art] && {} + art.Repr == art.Repr;
    AppendChild([art], art.Repr, inner, program);
    assert [art] + [program] == [art, program];
    structure.Seal(art.Repr + program.Repr);
  }

  /** Closes the root once the root name's node below it is complete; the result is the template. */
  ghost method SealRoot(rootName: string, rootFolder: Folder, structure: Folder)
    requires rootFolder.Name == BaseName && rootFolder.ParentPath == "" && rootFolder.PathsAgree()
    requires rootFolder.Subfolders == [structure] && rootFolder.Repr == {rootFolder}
    requires structure.Valid() && structure.ParentPath == BaseName && rootFolder !in structure.Repr
    requires structure.Model() == Node(rootName, BaseName, JoinPath(BaseName, rootName),
      [Grow(JoinPath(BaseName, rootName), ArtLayout()), Grow(JoinPath(BaseName, rootName), ProgramLayout())])
    modifies rootFolder`Repr
    ensures rootFolder.Repr == {rootFolder} + structure.Repr
    ensures rootFolder.Valid() && rootFolder.Model() == Template(rootName)
  {
    AppendChild([], {}, BaseName, structure);
    assert [] + [structure] == [structure] && {} + structure.Repr == structure.Repr;
    rootFolder.Seal(structure.Repr);
    TemplateTop(rootName);
  }

  // ----- What a run of Execute on the template does -----

  /** A run reports one result per template node, 31 in all, in pre-order, starting with the root's "/Assets". */
  lemma RunReportsEveryNode(rootName: string, fs: FsState)
    ensures |Walk(Template(rootName), fs).results| == 31
    ensures PathsOf(Walk(Template(rootName), fs).results) == PreOrder(Template(rootName))
    ensures Walk(Template(rootName), fs).results[0].path == [Sep] + BaseName
  {
    WalkResultShape(Template(rootName), fs);
    TemplateSize(rootName);
    WalkPreOrder(Template(rootName), fs);
    TemplateTop(rootName);
  }

  /** A run only adds template directories and markers inside them, and leaves each template directory ready. */
  lemma RunEffects(rootName: string, fs: FsState)
    ensures AddsOnly(fs, Walk(Template(rootName), fs).fs, PreOrder(Template(rootName)))
    ensures forall p :: p in PreOrder(Template(rootName)) ==> Ready(Walk(Template(rootName), fs).fs, p)
  {
    TemplateWellFormed(rootName);
    WalkAddsOnly(Template(rootName), fs);
    WalkCovers(Template(rootName), fs);
  }

  /** Running Execute again with the same root name reports AlreadyPresent everywhere and changes nothing. */
  lemma SecondRunChangesNothing(rootName: string, fs: FsState)
    ensures Walk(Template(rootName), Walk(Template(rootName), fs).fs).fs == Walk(Template(rootName), fs).fs
    ensures AllAlreadyPresent(Walk(Template(rootName), Walk(Template(rootName), fs).fs).results)
  {
    TemplateWellFormed(rootName);
    Idempotent(Template(rootName), fs);
  }

  /**
   * On an empty project, a run creates every one of the 31 template
   * directories, reporting Created at each node, and leaves exactly those
   * directories, each holding only its marker.
   */
  lemma RunOnEmptyProject(rootName: string)
    ensures AllCreated(Walk(Template(rootName), FsState({}, {})).results)
    ensures Walk(Template(rootName), FsState({}, {})).fs.dirs == set p | p in PreOrder(Template(rootName))
    ensures |Walk(Template(rootName), FsState({}, {})).fs.dirs| == 31
    ensures Walk(Template(rootName), FsState({}, {})).fs.files == set p | p in PreOrder(Template(rootName)) :: FileEntry(p, Keep)
  {
    TemplateWellFormed(rootName);
    TemplatePathsDistinct(rootName);
    TemplatePathCount(rootName);
    FromEmpty(Template(rootName));
    WalkCreatesAll(Template(rootName), FsState({}, {}));
    DistinctCount(PreOrder(Template(rootName)));
  }

  /**
   * On a partly created project, a run reports at each of the 31 nodes, in
   * pre-order, the action its directory called for beforehand: Created exactly
   * where the directory was missing, AlreadyPresent exactly where it already
   * held a file. It adds the missing directories, and markers only where a
   * directory was not ready.
   */
  lemma RunOnPartialProject(rootName: string, fs: FsState)
    ensures |Walk(Template(rootName), fs).results| == |PreOrder(Template(rootName))| == 31
    ensures forall i :: 0 <= i < 31 ==>
              Walk(Template(rootName), fs).results[i] ==
                NodeResult(PreOrder(Template(rootName))[i], Expected(fs, PreOrder(Template(rootName))[i]))
    ensures forall i :: 0 <= i < 31 ==>
              (Walk(Template(rootName), fs).results[i].action == Created <==> PreOrder(Template(rootName))[i] !in fs.dirs)
    ensures Walk(Template(rootName), fs).fs.dirs == fs.dirs + set p | p in PreOrder(Template(rootName))
    ensures Walk(Template(rootName), fs).fs.files ==
              fs.files + set p | p in PreOrder(Template(rootName)) && !Ready(fs, p) :: FileEntry(p, Keep)
  {
    TemplateWellFormed(rootName);
    TemplatePathsDistinct(rootName);
    TemplatePathCount(rootName);
    WalkOutcomes(Template(rootName), fs);
  }

  /**
   * A project where only Assets/rootName exists, already holding a file: that
   * node reports AlreadyPresent and gets no marker, every other node is Created.
   */
  lemma RunWithRootFolderPresent(rootName: string, note: string, fs: FsState)
    requires fs == FsState({JoinPath(BaseName, rootName)}, {FileEntry(JoinPath(BaseName, rootName), note)})
    ensures |Walk(Template(rootName), fs).results| == 31
    ensures Walk(Template(rootName), fs).results[1] == NodeResult(JoinPath(BaseName, rootName), AlreadyPresent)
    ensures forall i :: 0 <= i < 31 && i != 1 ==> Walk(Template(rootName), fs).results[i].action == Created
    ensures Walk(Template(rootName), fs).fs.files ==
              fs.files + set p | p in PreOrder(Template(rootName)) && p != JoinPath(BaseName, rootName) :: FileEntry(p, Keep)
  {
    var d := JoinPath(BaseName, rootName);
    var ps := PreOrder(Template(rootName));
    TemplateTop(rootName);
    var s := RootNameNode(rootName);
    assert PreOrderAll([s]) == PreOrder(s) by {
      assert [s][..0] == [];
    }
    assert ps[1] == d;
    assert note in FilesIn(fs, d);
    RunOnPartialProject(rootName, fs);
    TemplatePathsDistinct(rootName);
    forall i | 0 <= i < 31 && i != 1
      ensures ps[i] !in fs.dirs
    {
      if i < 1 {
        assert ps[i] != ps[1];
      } else {
        assert ps[1] != ps[i];
      }
    }
    assert (set p | p in ps && !Ready(fs, p) :: FileEntry(p, Keep)) ==
           (set p | p in ps && p != d :: FileEntry(p, Keep));
  }

  class CreateProjectStructure {
    /** The root folder name typed into the window. */
    var RootName: string

    constructor ()
      ensures RootName == ""
    {
      RootName := "";
    }

    /** Appends the five program leaves to `structure`, after whatever it already holds. */
    method ProgramStructure(structure: Folder, ghost others: set<Folder>)
      requires structure.Valid() && structure.Repr !! others
      modifies structure`Subfolders, structure`Repr
      ensures structure.Valid() && structure.Repr !! others
      ensures structure.Model() == AddAll(old(structure.Model()), ProgramLayout().kids)
    {
      AddLayout(structure, ProgramLayout(), others);
    }

    /** Appends the eight art subfolders to `structure`, with the sections below four of them. */
    method ArtStructure(structure: Folder, ghost others: set<Folder>)
      requires structure.Valid() && structure.Repr !! others
      modifies structure`Subfolders, structure`Repr
      ensures structure.Valid() && structure.Repr !! others
      ensures structure.Model() == AddAll(old(structure.Model()), ArtLayout().kids)
    {
      AddLayout(structure, ArtLayout(), others);
    }

    /** Builds the template tree for the current root name and returns its root. */
    method GenerateFolderStructure() returns (rootFolder: Folder)
      ensures rootFolder.Valid() && rootFolder.Model() == Template(RootName)
    {
      var rootName := RootName;
      rootFolder := new Folder(BaseName, "");
      var structure := rootFolder.Add(rootName);
      assert rootFolder.Subfolders == [structure];
      BranchStructure(structure, rootName, {rootFolder});
      SealRoot(rootName, rootFolder, structure);
    }

    /**
     * The rest of GenerateFolderStructure, on the root name's node: adds the
     * art and program subfolders, then fills in the art branch and then the
     * program branch.
     */
    method BranchStructure(structure: Folder, ghost rootName: string, ghost others: set<Folder>)
      requires structure.Name == rootName && structure.ParentPath == BaseName && structure.PathsAgree()
      requires structure.Subfolders == [] && structure.Repr == {structure} && structure !in others
      modifies structure`Subfolders, structure`Repr
      ensures structure.Valid() && structure.Repr !! others
      ensures structure.Model() == Node(rootName, BaseName, JoinPath(BaseName, rootName),
        [Grow(JoinPath(BaseName, rootName), ArtLayout()), Grow(JoinPath(BaseName, rootName), ProgramLayout())])
    {
      var art := structure.Add("00_Art");
      var program := structure.Add("01_Program");
      assert structure.Subfolders == [art, program];
      art.LeafValid();
      program.LeafValid();
      ghost var inner := JoinPath(BaseName, rootName);
      assert art.Model() == Grow(inner, Leaf("00_Art")) && program.Model() == Grow(inner, Leaf("01_Program"));
      ArtStructure(art, others + {structure, program});
      ghost var artModel := art.Model();
      assert artModel == AddAll(Grow(inner, Leaf("00_Art")), ArtLayout().kids);
      ProgramStructure(program, others + {structure} + art.Repr);
      assert art.Valid() && art.Model() == artModel;
      SealStructure(rootName, structure, art, program, ArtLayout(), ProgramLayout());
    }

    /**
     * The pre-order walk: reconciles `rootFolder`'s directory with the
     * filesystem, then walks each subfolder in list order. Each node's
     * result stands for the message the source logs there.
     */
    method CreateFolders(rootFolder: Folder, fs: FileSystem) returns (results: seq<NodeResult>)
      requires rootFolder.Valid()
      modifies fs
      ensures fs.State() == Walk(old(rootFolder.Model()), old(fs.State())).fs
      ensures results == Walk(old(rootFolder.Model()), old(fs.State())).results
      decreases rootFolder.Repr
    {
      ghost var t := rootFolder.Model();
      ghost var v := Visit(t, fs.State());
      var own := ReconcileOne(rootFolder, fs, t);
      results := [own];
      assert t.children[..0] == [];
      ghost var w := WalkAll(t.children[..0], v.fs);
      var i := 0;
      while i < |rootFolder.Subfolders|
        invariant 0 <= i <= |rootFolder.Subfolders|
        invariant w == WalkAll(t.children[..i], v.fs)
        invariant fs.State() == w.fs && results == v.results + w.results
        invariant rootFolder.Valid() && rootFolder.Model() == t
      {
        var child := rootFolder.Subfolders[i];
        rootFolder.ModelChild(i);
        var r := CreateFolders(child, fs);
        WalkAllSnoc(t.children, i, v.fs);
        ConcatAssoc(v.results, w.results, r);
        w := Run(fs.State(), w.results + r);
        results := results + r;
        i := i + 1;
      }
      assert t.children[..i] == t.children;
    }

    /**
     * The first half of CreateFolders, for one node: a missing directory is
     * created and given a marker, a present directory without files is given
     * a marker, and a directory holding files is left alone.
     */
    method ReconcileOne(folder: Folder, fs: FileSystem, ghost t: Tree) returns (result: NodeResult)
      requires t.name == folder.Name && t.parentPath == folder.ParentPath && t.dirPath == folder.DirPath
      modifies fs
      ensures fs.State() == Visit(t, old(fs.State())).fs
      ensures [result] == Visit(t, old(fs.State())).results
    {
      if !fs.IsValidFolder(folder.DirPath) {
        fs.CreateFolder(folder.ParentPath, folder.Name);
        fs.CreateFile(folder.DirPath, Keep);
        result := NodeResult(folder.DirPath, Created);
      } else if |fs.GetFiles(folder.DirPath)| < 1 {
        fs.CreateFile(folder.DirPath, Keep);
        result := NodeResult(folder.DirPath, MarkerAdded);
      } else {
        result := NodeResult(folder.DirPath, AlreadyPresent);
      }
    }

    /** Refuses an empty root name and changes nothing; otherwise builds the template and walks it. */
    method Execute(fs: FileSystem) returns (outcome: Outcome)
      modifies fs
      ensures RootName == "" ==> outcome == MissingRootName && fs.State() == old(fs.State())
      ensures RootName != "" ==>
                outcome == Generated(Walk(Template(RootName), old(fs.State())).results) &&
                fs.State() == Walk(Template(RootName), old(fs.State())).fs
    {
      if |RootName| == 0 {
        outcome := MissingRootName;
        return;
      }
      var assets := GenerateFolderStructure();
      var results := CreateFolders(assets, fs);
      outcome := Generated(results);
    }
  }
}
