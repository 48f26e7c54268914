// The fixed folder layout that GenerateFolderStructure, ArtStructure and
// ProgramStructure declare (CreateProjectStructure.cs, lines 102-155), as
// names only, and the facts about the tree it instantiates to.

module ProjectTemplate {
  import opened FolderPaths
  import opened PathUniqueness

  /** The name of the root node, built with an empty ParentPath. */
  const BaseName: string := "Assets"

  function Leaf(name: string): Shape
  {
    Dir(name, [])
  }

  /** The program branch: ProgramStructure's five leaves, in the order it adds them. */
  function ProgramLayout(): Shape
  {
    Dir("01_Program", [Leaf("00_Scenes"), Leaf("01_Scripts"), Leaf("02_Test"), Leaf("03_Prefabs"), Leaf("04_UI")])
  }

  // The four art sections that receive subfolders of their own.

  function PrefabsLayout(): Shape
  {
    Dir("00_Prefabs", [Leaf("Models"), Leaf("UI")])
  }

  function ShadersLayout(): Shape
  {
    Dir("01_Shaders", [Leaf("UI_Shaders")])
  }

  function ModelsLayout(): Shape
  {
    Dir("03_Models", [ Dir("Example_Model", [Leaf("3D"), Leaf("Animations"), Leaf("Textures")]),
                       Dir("Example_Effect", [Leaf("Textures")]) ])
  }

  function UILayout(): Shape
  {
    Dir("05_UI", [ Leaf("00_Textures"),
                   Dir("Example_Effect", [Leaf("Textures"), Leaf("Animations"), Leaf("Material")]) ])
  }

  /** The art branch: ArtStructure's eight subfolders, in the order it adds them, with their sections. */
  function ArtLayout(): Shape
  {
    Dir("00_Art", [ PrefabsLayout(), ShadersLayout(), Leaf("02_Timelines"), ModelsLayout(),
                    Leaf("04_Scenes"), UILayout(), Leaf("06_Audios"), Leaf("07_Videos") ])
  }

  /** The whole layout: Assets, the user's root, then its art and program branches. */
  function TemplateShape(rootName: string): Shape
  {
    Dir(BaseName, [Dir(rootName, [ArtLayout(), ProgramLayout()])])
  }

  /** The tree GenerateFolderStructure returns for `rootName`. */
  function Template(rootName: string): Tree
  {
    Grow("", TemplateShape(rootName))
  }

  /**
   * The top of the template: the root has the separator-prefixed DirPath and
   * passes its bare name down, the root name's node lives at Assets/rootName,
   * and the two branches grow from there.
   */
  lemma TemplateTop(rootName: string)
    ensures Template(rootName) ==
      Node(BaseName, "", [Sep] + BaseName,
        [Node(rootName, BaseName, JoinPath(BaseName, rootName),
          [Grow(JoinPath(BaseName, rootName), ArtLayout()), Grow(JoinPath(BaseName, rootName), ProgramLayout())])])
  {
    var inner := JoinPath(BaseName, rootName);
    assert GrowAll(inner, [ArtLayout(), ProgramLayout()]) == [Grow(inner, ArtLayout()), Grow(inner, ProgramLayout())] by {
      assert [ArtLayout(), ProgramLayout()][..1] == [ArtLayout()];
      assert [ArtLayout()][..0] == [];
    }
    assert GrowAll(BaseName, [Dir(rootName, [ArtLayout(), ProgramLayout()])]) ==
      [Grow(BaseName, Dir(rootName, [ArtLayout(), ProgramLayout()]))] by {
      assert [Dir(rootName, [ArtLayout(), ProgramLayout()])][..0] == [];
    }
  }

  // ----- Size: 31 nodes -----

  lemma ModelsSize()
    ensures ShapeSize(ModelsLayout()) == 7
  {
    ShapeSizeFromKids(ModelsLayout().kids[0], [1, 1, 1]);
    ShapeSizeFromKids(ModelsLayout().kids[1], [1]);
    ShapeSizeFromKids(ModelsLayout(), [4, 2]);
  }

  lemma UISize()
    ensures ShapeSize(UILayout()) == 6
  {
    ShapeSizeFromKids(UILayout().kids[1], [1, 1, 1]);
    ShapeSizeFromKids(UILayout(), [1, 4]);
  }

  /** The art branch has 23 nodes, itself included. */
  lemma ArtSize()
    ensures ShapeSize(ArtLayout()) == 23
  {
    ShapeSizeFromKids(PrefabsLayout(), [1, 1]);
    ShapeSizeFromKids(ShadersLayout(), [1]);
    ModelsSize();
    UISize();
    ShapeSizeFromKids(ArtLayout(), [3, 2, 1, 7, 1, 6, 1, 1]);
  }

  /** The program branch has 6 nodes, itself included. */
  lemma ProgramSize()
    ensures ShapeSize(ProgramLayout()) == 6
  {
    ShapeSizeFromKids(ProgramLayout(), [1, 1, 1, 1, 1]);
  }

  /** Whatever the root name, the template has 31 nodes. */
  lemma TemplateSize(rootName: string)
    ensures Size(Template(rootName)) == 31
  {
    var top := TemplateShape(rootName);
    ArtSize();
    ProgramSize();
    ShapeSizeFromKids(top.kids[0], [23, 6]);
    ShapeSizeFromKids(top, [30]);
    GrowSize("", top);
  }

  // ----- Sibling names -----

  /** A shape whose kids have pairwise distinct names and are themselves distinct inside. */
  lemma DistinctFromKids(s: Shape)
    requires forall i, j :: 0 <= i < j < |s.kids| ==> s.kids[i].name != s.kids[j].name
    requires forall i :: 0 <= i < |s.kids| ==> ShapeSiblingsDistinct(s.kids[i])
    ensures ShapeSiblingsDistinct(s)
  {
  }

  lemma ModelsDistinct()
    ensures ShapeSiblingsDistinct(ModelsLayout())
  {
    DistinctFromKids(ModelsLayout().kids[0]);
    DistinctFromKids(ModelsLayout().kids[1]);
    DistinctFromKids(ModelsLayout());
  }

  lemma UIDistinct()
    ensures ShapeSiblingsDistinct(UILayout())
  {
    DistinctFromKids(UILayout().kids[1]);
    DistinctFromKids(UILayout());
  }

  /** The eight art subfolders are told apart by their two-digit prefixes. */
  lemma ArtNamesDistinct()
    ensures forall i, j :: 0 <= i < j < |ArtLayout().kids| ==> ArtLayout().kids[i].name != ArtLayout().kids[j].name
  {
    var ks := ArtLayout().kids;
    forall i, j | 0 <= i < j < |ks|
      ensures ks[i].name != ks[j].name
    {
      assert ks[i].name[1] != ks[j].name[1];
    }
  }

  lemma ArtDistinct()
    ensures ShapeSiblingsDistinct(ArtLayout())
  {
    DistinctFromKids(PrefabsLayout());
    DistinctFromKids(ShadersLayout());
    ModelsDistinct();
    UIDistinct();
    ArtNamesDistinct();
    DistinctFromKids(ArtLayout());
  }

  lemma ProgramDistinct()
    ensures ShapeSiblingsDistinct(ProgramLayout())
  {
    var ks := ProgramLayout().kids;
    forall i, j | 0 <= i < j < |ks|
      ensures ks[i].name != ks[j].name
    {
      assert ks[i].name[1] != ks[j].name[1];
    }
    DistinctFromKids(ProgramLayout());
  }

  /** Within every node of the template, sibling names differ. */
  lemma TemplateSiblingsDistinct(rootName: string)
    ensures SiblingsDistinct(Template(rootName))
  {
    var top := TemplateShape(rootName);
    ArtDistinct();
    ProgramDistinct();
    DistinctFromKids(top.kids[0]);
    DistinctFromKids(top);
    GrowSiblingsDistinct("", top);
  }

  // ----- Paths and shape -----

  /** Every node of the template obeys the constructor and Add path rules. */
  lemma TemplateWellFormed(rootName: string)
    ensures WellFormed(Template(rootName))
  {
    GrowWellFormed("", TemplateShape(rootName));
  }

  /** Forgetting the paths of the template gives back the declared layout. */
  lemma TemplateShapeOf(rootName: string)
    ensures ShapeOf(Template(rootName)) == TemplateShape(rootName)
  {
    ShapeOfGrow("", TemplateShape(rootName));
  }

  // ----- Paths: 31 distinct directories -----

  lemma SepFreeFromKids(s: Shape)
    requires Sep !in s.name
    requires forall i :: 0 <= i < |s.kids| ==> ShapeNamesSepFree(s.kids[i])
    ensures ShapeNamesSepFree(s)
  {
  }

  lemma ExampleModelSepFree()
    ensures ShapeNamesSepFree(ModelsLayout().kids[0])
  {
    SepFreeFromKids(ModelsLayout().kids[0]);
  }

  lemma ModelsEffectSepFree()
    ensures ShapeNamesSepFree(ModelsLayout().kids[1])
  {
    SepFreeFromKids(ModelsLayout().kids[1]);
  }

  lemma ModelsSepFree()
    ensures ShapeNamesSepFree(ModelsLayout())
  {
    ExampleModelSepFree();
    ModelsEffectSepFree();
    SepFreeFromKids(ModelsLayout());
  }

  lemma UIEffectSepFree()
    ensures ShapeNamesSepFree(UILayout().kids[1])
  {
    SepFreeFromKids(UILayout().kids[1]);
  }

  lemma UISepFree()
    ensures ShapeNamesSepFree(UILayout())
  {
    UIEffectSepFree();
    SepFreeFromKids(UILayout());
  }

  lemma PrefabsShadersSepFree()
    ensures ShapeNamesSepFree(PrefabsLayout()) && ShapeNamesSepFree(ShadersLayout())
  {
    SepFreeFromKids(PrefabsLayout());
    SepFreeFromKids(ShadersLayout());
  }

  /** No name of the art branch contains the separator. */
  lemma ArtSepFree()
    ensures ShapeNamesSepFree(ArtLayout())
  {
    PrefabsShadersSepFree();
    ModelsSepFree();
    UISepFree();
    SepFreeFromKids(ArtLayout());
  }

  /** No name of the program branch contains the separator. */
  lemma ProgramSepFree()
    ensures ShapeNamesSepFree(ProgramLayout())
  {
    SepFreeFromKids(ProgramLayout());
  }

  /** The root name's node of the template, as TemplateTop spells it out. */
  function RootNameNode(rootName: string): Tree
  {
    var inner := JoinPath(BaseName, rootName);
    Node(rootName, BaseName, inner, [Grow(inner, ArtLayout()), Grow(inner, ProgramLayout())])
  }

  /** Below the root name's node the paths are distinct and all lie within Assets/rootName. */
  lemma StructurePathsDistinct(rootName: string)
    ensures Distinct(PreOrder(RootNameNode(rootName)))
    ensures forall p :: p in PreOrder(RootNameNode(rootName)) ==> Within(JoinPath(BaseName, rootName), p)
  {
    var inner := JoinPath(BaseName, rootName);
    var s := RootNameNode(rootName);
    TemplateTop(rootName);
    TemplateWellFormed(rootName);
    TemplateSiblingsDistinct(rootName);
    assert Template(rootName).children[0] == s;
    ArtSepFree();
    ProgramSepFree();
    GrowNamesSepFree(inner, ArtLayout());
    GrowNamesSepFree(inner, ProgramLayout());
    assert InnerNamesSepFree(s);
    PathsUnique(s);
  }

  /**
   * Whatever the root name, even one holding separators, the 31 dirPaths of
   * the template are pairwise distinct: /Assets starts with the separator,
   * and every other path lies within Assets/rootName, below which the fixed
   * names tell the paths apart.
   */
  lemma TemplatePathsDistinct(rootName: string)
    ensures Distinct(PreOrder(Template(rootName)))
  {
    var inner := JoinPath(BaseName, rootName);
    var t := Template(rootName);
    TemplateTop(rootName);
    StructurePathsDistinct(rootName);
    var s := RootNameNode(rootName);
    assert t.children == [s];
    assert PreOrderAll([s]) == PreOrder(s) by {
      assert [s][..0] == [];
    }
    forall p | p in PreOrder(s)
      ensures p != [Sep] + BaseName
    {
      assert p[0] == inner[0];
    }
    DistinctConcat([[Sep] + BaseName], PreOrder(s));
  }

  /** The pre-order listing of the template has its 31 nodes' paths. */
  lemma TemplatePathCount(rootName: string)
    ensures |PreOrder(Template(rootName))| == 31
  {
    TemplateSize(rootName);
    PreOrderLength(Template(rootName));
  }
}
