# Project Structure Generator, modelled in Dafny

The repository is a Unity editor extension. It has a window with a "Root Name"
field and a "Create Structure" button. The button runs `Execute`, which:

- refuses an empty root name;
- builds a fixed template of `Folder` objects: `Assets`, then
  `Assets/<RootName>`, then an art branch and a program branch below it;
- walks that tree depth-first (`CreateFolders`), reconciling each node with
  the project's directories. A missing directory is created and given a
  `.keep` file. An existing directory with no files is given a `.keep` file.
  Any other directory is left alone.

The model follows that C# code (`Assets/ProjectStructure/Editor/CreateProjectStructure.cs`)
file by file:

- `paths.dfy` (`FolderPaths`): the path rules of the constructor and of
  `Add`. It also has `Tree`, a value view of a folder tree, and `Shape`, a
  layout given by names only, which grows into a `Tree` under a parent path
  by those same rules.
- `folder.dfy` (`FolderModel`): the `Folder` class. It has the source's
  fields `DirPath`, `ParentPath`, `Name` and `Subfolders`. Its constructor
  assigns them, and `Add` appends a fresh child in place. `Valid()` says the
  objects below a node form a tree, and the ghost `Model()` gives that tree
  as a `Tree` value.
- `template.dfy` (`ProjectTemplate`): the fixed layout that
  `GenerateFolderStructure`, `ArtStructure` and `ProgramStructure` declare.
  Its lemmas prove that the template, for any root name:
  - has 31 nodes;
  - has distinct names among the children of every node;
  - obeys the path rules;
  - has exactly the declared shape.
- `filesystem.dfy` (`FileSystemModel`): an abstract filesystem. It is a set
  of directory paths plus a set of files, each file being (directory, name).
  The class `FileSystem` holds one, and its members stand for the four
  foreign calls the walk makes (`IsValidFolder`, `GetFiles`, `CreateFolder`,
  `File.Create`).
- `materializer.dfy` (`Materializer`): what the walk does, as functions
  `Visit`, `Walk` and `WalkAll` of a tree and a filesystem state. Its lemmas
  prove:
  - the results come in pre-order;
  - a run only adds directories and markers;
  - after a run every node is ready;
  - a second run changes nothing;
  - a run over missing, distinct paths reports Created at every node;
  - on a partly created tree, each node reports the action its directory
    called for before the run, and only the missing directories and markers
    are added;
  - a run on an empty project leaves exactly the template.
- `unique.dfy` (`PathUniqueness`): when the DirPaths of a tree are pairwise
  distinct. Distinct sibling names are not enough on their own: siblings `a`
  and `a/b`, with a child `b` under `a`, would share a path. The lemma
  therefore also asks that no name below the top contain the separator. The
  template meets this for every root name, since only the root name itself
  may hold separators.
- `project.dfy` (`ProjectStructure`): the `CreateProjectStructure` window
  with its `RootName` field, and the methods `Execute`,
  `GenerateFolderStructure`, `ArtStructure`, `ProgramStructure` and
  `CreateFolders`. Each is proved against the functions above: the built
  object graph models `Template(RootName)`, and the walk changes the
  filesystem exactly as `Walk` says. Lemmas state what one run of `Execute`
  does.

The per-node `Debug.Log` messages are modelled as one `NodeResult` per node,
holding the node's `DirPath` and an `Action`: `Created`, `MarkerAdded` or
`AlreadyPresent`.

A path detail, as the code has it: the constructor always sets
`DirPath = ParentPath + separator + Name`. The root is built as
`("Assets", "")`, so its `DirPath` is `/Assets`, with a leading separator.
`Add`, however, gives the root's children the bare `Assets` as their
`ParentPath`. So a child's `ParentPath` equals its parent's `DirPath` for
every parent except the root (`ChildOfInnerNode`, `ChildOfRootNode`). The
model keeps this, including the `/Assets` path that the first `CreateFolders`
visit checks.

## Model

| member | source | states |
|---|---|---|
| FolderModel.Folder.constructor | Assets/ProjectStructure/Editor/CreateProjectStructure.cs:27-33 | Name and ParentPath are the two arguments, DirPath is ParentPath + separator + Name, Subfolders is empty; the node is a valid leaf modelling that one-node tree |
| FolderModel.Folder.Add | Assets/ProjectStructure/Editor/CreateProjectStructure.cs:15-25 | returns a fresh leaf appended at the end of Subfolders, earlier children kept in order; its ParentPath is ParentPath + separator + Name when ParentPath is non-empty and Name otherwise; only Subfolders of this node changes |
| FolderModel.Folder.ModelWellFormed | Assets/ProjectStructure/Editor/CreateProjectStructure.cs:15-33 | every node of a valid Folder graph has DirPath = ParentPath + separator + Name, and every child has the ParentPath Add gives it |
| FolderPaths.ChildOfInnerNode | Assets/ProjectStructure/Editor/CreateProjectStructure.cs:18-19 | in a well-formed tree, a child of a node with a non-empty ParentPath has that node's DirPath as its ParentPath |
| FolderPaths.ChildOfRootNode | Assets/ProjectStructure/Editor/CreateProjectStructure.cs:20-21 | a node with an empty ParentPath has a DirPath that starts with the separator, and its children take its bare Name as ParentPath, which differs from its DirPath |
| FolderPaths.GrowWellFormed | Assets/ProjectStructure/Editor/CreateProjectStructure.cs:15-33 | any layout grown by the constructor and Add rules is a tree that obeys both path rules |
| FolderPaths.ShapeOfGrow | Assets/ProjectStructure/Editor/CreateProjectStructure.cs:15-33 | forgetting the paths of a grown layout gives the layout back: Add keeps names and child order |
| FolderPaths.GrowSize | Assets/ProjectStructure/Editor/CreateProjectStructure.cs:15-33 | a grown layout has as many nodes as the layout names |
| FolderPaths.GrowSiblingsDistinct | Assets/ProjectStructure/Editor/CreateProjectStructure.cs:15-33 | a layout with distinct sibling names grows into a tree with distinct sibling names |
| FolderPaths.PreOrderLength | Assets/ProjectStructure/Editor/CreateProjectStructure.cs:96-99 | the pre-order listing of a tree has one entry per node |
| ProjectTemplate.TemplateTop | Assets/ProjectStructure/Editor/CreateProjectStructure.cs:104-107 | the template root is Assets with DirPath /Assets and the single child RootName at Assets/RootName, whose children are the art branch and then the program branch |
| ProjectTemplate.ProgramSize | Assets/ProjectStructure/Editor/CreateProjectStructure.cs:113-120 | the program branch has 6 nodes: itself and its five leaves |
| ProjectTemplate.ArtSize | Assets/ProjectStructure/Editor/CreateProjectStructure.cs:122-155 | the art branch has 23 nodes: itself, its eight subfolders and the sections below four of them |
| ProjectTemplate.TemplateSize | Assets/ProjectStructure/Editor/CreateProjectStructure.cs:102-155 | whatever the root name, the template has 31 nodes |
| ProjectTemplate.ArtNamesDistinct | Assets/ProjectStructure/Editor/CreateProjectStructure.cs:124-131 | the eight art subfolders have pairwise distinct names |
| ProjectTemplate.TemplateSiblingsDistinct | Assets/ProjectStructure/Editor/CreateProjectStructure.cs:102-155 | within every node of the template, sibling names are distinct |
| ProjectTemplate.TemplateWellFormed | Assets/ProjectStructure/Editor/CreateProjectStructure.cs:102-155 | every template node obeys the constructor and Add path rules |
| ProjectTemplate.ArtSepFree | Assets/ProjectStructure/Editor/CreateProjectStructure.cs:124-154 | no name of the art branch contains the separator |
| ProjectTemplate.ProgramSepFree | Assets/ProjectStructure/Editor/CreateProjectStructure.cs:115-119 | no name of the program branch contains the separator |
| ProjectTemplate.TemplatePathsDistinct | Assets/ProjectStructure/Editor/CreateProjectStructure.cs:102-155 | whatever the root name, separators included, the template's DirPaths are pairwise distinct |
| ProjectTemplate.TemplatePathCount | Assets/ProjectStructure/Editor/CreateProjectStructure.cs:102-155 | the pre-order listing of the template holds 31 paths, one per node |
| ProjectTemplate.TemplateShapeOf | Assets/ProjectStructure/Editor/CreateProjectStructure.cs:102-155 | the template has exactly the declared names in the declared order at every level |
| ProjectStructure.CreateProjectStructure.constructor | Assets/ProjectStructure/Editor/CreateProjectStructure.cs:38 | the window starts with an empty RootName |
| ProjectStructure.AddLayout | Assets/ProjectStructure/Editor/CreateProjectStructure.cs:122-155 | a run of Add calls on one folder, each new subfolder then given its own Add calls: the folder stays a valid tree, keeps its children and gains the layout's kids after them, in order, each grown as the layout says; no node outside its footprint is drawn in |
| ProjectStructure.AddGrown | Assets/ProjectStructure/Editor/CreateProjectStructure.cs:141-144 | one Add call followed by the Add calls on the returned subfolder: the folder gains exactly one last child, grown as the layout says, and stays a valid tree |
| ProjectStructure.CreateProjectStructure.ProgramStructure | Assets/ProjectStructure/Editor/CreateProjectStructure.cs:113-120 | the folder passed in keeps its children and gains the five program leaves after them, in source order |
| ProjectStructure.CreateProjectStructure.ArtStructure | Assets/ProjectStructure/Editor/CreateProjectStructure.cs:122-155 | the folder passed in keeps its children and gains the eight art subfolders after them, in source order, with their sections |
| ProjectStructure.CreateProjectStructure.BranchStructure | Assets/ProjectStructure/Editor/CreateProjectStructure.cs:106-109 | below the root name's node come 00_Art and then 01_Program, grown into the art and program branches |
| ProjectStructure.CreateProjectStructure.GenerateFolderStructure | Assets/ProjectStructure/Editor/CreateProjectStructure.cs:102-111 | the returned root is a valid folder tree whose model is the template for the current root name |
| ProjectStructure.CreateProjectStructure.ReconcileOne | Assets/ProjectStructure/Editor/CreateProjectStructure.cs:77-94 | one node's filesystem change and result are exactly those of Visit |
| ProjectStructure.CreateProjectStructure.CreateFolders | Assets/ProjectStructure/Editor/CreateProjectStructure.cs:75-100 | the filesystem afterwards and the results are exactly those of the pre-order Walk of the tree's model |
| ProjectStructure.CreateProjectStructure.Execute | Assets/ProjectStructure/Editor/CreateProjectStructure.cs:40-49 | an empty root name gives MissingRootName with the filesystem unchanged; otherwise the filesystem and the results are those of walking the template for that root name |
| ProjectStructure.RunReportsEveryNode | Assets/ProjectStructure/Editor/CreateProjectStructure.cs:40-49 | one run on the template gives 31 results, their paths in pre-order, the first for /Assets |
| ProjectStructure.RunEffects | Assets/ProjectStructure/Editor/CreateProjectStructure.cs:40-49 | one run on the template adds only template directories and .keep markers inside them, and leaves every template directory present and holding a file |
| ProjectStructure.SecondRunChangesNothing | Assets/ProjectStructure/Editor/CreateProjectStructure.cs:40-49 | a second run with the same root name reports AlreadyPresent at every node and leaves the filesystem as the first run left it |
| ProjectStructure.RunOnEmptyProject | Assets/ProjectStructure/Editor/CreateProjectStructure.cs:40-49 | on an empty project, one run reports Created at every node and leaves exactly the template's 31 directories, each holding only its .keep marker |
| ProjectStructure.RunOnPartialProject | Assets/ProjectStructure/Editor/CreateProjectStructure.cs:75-100 | whatever already exists, one run reports at each of the 31 nodes, in pre-order, the action its directory called for before the run (Created exactly where it was missing, AlreadyPresent exactly where it held a file), adds the missing directories, and adds a .keep marker exactly where a directory was not ready |
| ProjectStructure.RunWithRootFolderPresent | Assets/ProjectStructure/Editor/CreateProjectStructure.cs:77-94 | when only Assets/RootName exists and already holds a file, that node reports AlreadyPresent and gets no marker, and every other node is Created with a marker |
| FileSystemModel.FileSystem.IsValidFolder | Assets/ProjectStructure/Editor/CreateProjectStructure.cs:77 | true exactly when the directory is present |
| FileSystemModel.FileSystem.GetFiles | Assets/ProjectStructure/Editor/CreateProjectStructure.cs:85 | the names of exactly the files directly inside the directory; subdirectories are not listed |
| FileSystemModel.FileSystem.CreateFolder | Assets/ProjectStructure/Editor/CreateProjectStructure.cs:80 | adds the directory ParentPath + separator + Name and changes nothing else |
| FileSystemModel.FileSystem.CreateFile | Assets/ProjectStructure/Editor/CreateProjectStructure.cs:81 | adds the .keep file in the node's directory and changes nothing else |
| FileSystemModel.ReadyMonotone | Assets/ProjectStructure/Editor/CreateProjectStructure.cs:77-94 | a directory that exists and holds a file stays so while the filesystem only grows |
| Materializer.Visit | Assets/ProjectStructure/Editor/CreateProjectStructure.cs:77-94 | one node: the filesystem only grows, there is one result for the node's DirPath, the directory is ready afterwards, and the result is AlreadyPresent exactly when nothing changed |
| Materializer.VisitOutcome | Assets/ProjectStructure/Editor/CreateProjectStructure.cs:77-94 | the three cases: a missing directory is created with a marker, an existing empty one gets only the marker, one holding a file is left as it is |
| Materializer.Walk | Assets/ProjectStructure/Editor/CreateProjectStructure.cs:75-100 | a walk never removes a directory or a file |
| Materializer.WalkPreOrder | Assets/ProjectStructure/Editor/CreateProjectStructure.cs:75-100 | the result paths of a walk are the pre-order listing of the tree: a node before its descendants, children in Subfolders order |
| Materializer.WalkResultShape | Assets/ProjectStructure/Editor/CreateProjectStructure.cs:75-100 | a walk gives one result per node, the root's own result first |
| Materializer.WalkAddsOnly | Assets/ProjectStructure/Editor/CreateProjectStructure.cs:75-100 | a walk adds only directories of the tree and .keep files inside them |
| Materializer.WalkCovers | Assets/ProjectStructure/Editor/CreateProjectStructure.cs:75-100 | after a walk every node's directory exists and holds a file |
| Materializer.WalkStable | Assets/ProjectStructure/Editor/CreateProjectStructure.cs:77-99 | a walk over a tree whose directories are all ready changes nothing and reports AlreadyPresent everywhere |
| Materializer.Idempotent | Assets/ProjectStructure/Editor/CreateProjectStructure.cs:75-100 | a second walk of the same tree reports AlreadyPresent at every node and leaves the filesystem unchanged |
| Materializer.WalkCreatesAll | Assets/ProjectStructure/Editor/CreateProjectStructure.cs:77-81 | when the tree's DirPaths are pairwise distinct and none exists yet, a walk reports Created at every node |
| Materializer.Expected | Assets/ProjectStructure/Editor/CreateProjectStructure.cs:77-94 | the action a node calls for is AlreadyPresent exactly when its directory exists and holds a file |
| Materializer.VisitFills | Assets/ProjectStructure/Editor/CreateProjectStructure.cs:77-94 | one visit adds its directory if missing and a marker exactly if the directory was not ready, and reports the action the directory called for |
| Materializer.WalkFills | Assets/ProjectStructure/Editor/CreateProjectStructure.cs:75-100 | for any starting filesystem and distinct DirPaths, a walk reports in pre-order the action each node's directory called for before the walk, and leaves the filesystem with every tree directory added and a marker added exactly in those that were not ready |
| Materializer.WalkOutcomes | Assets/ProjectStructure/Editor/CreateProjectStructure.cs:75-100 | the same node by node: the i-th result is the i-th pre-order DirPath with the action it called for before the walk; the final directories and files are the old ones plus the tree's directories and the markers of the directories that were not ready |
| PathUniqueness.PathsUnique | Assets/ProjectStructure/Editor/CreateProjectStructure.cs:15-33 | below a non-empty ParentPath, distinct sibling names without separators give pairwise distinct DirPaths, all within the top node's DirPath |
| Materializer.FromEmpty | Assets/ProjectStructure/Editor/CreateProjectStructure.cs:75-100 | from an empty filesystem, a walk leaves exactly the tree's directories, each holding only .keep |

## Left out

- The editor window and menu (`Init`, `OnGUI`, lines 51-73) are user interface. `RootName` is a plain field of the model, set however the caller likes.
- The `Debug.Log` and `Debug.LogError` messages (lines 44, 79, 88, 92) are not formatted. Each node's message is a `NodeResult`, and the refusal is the `MissingRootName` outcome.
- `AssetDatabase` and `System.IO` are replaced by the abstract filesystem: there is no asset import and no `.meta` files. The `Directory.GetCurrentDirectory()` prefix is dropped, so every path is relative to the project. The separator is the constant `/`.
- `File.Create` leaves a `FileStream` open; file contents and handles are not modelled, only the file's presence.
- Execute: a null `RootName` cannot be expressed, because Dafny strings are never null and the field starts as "". `string.IsNullOrEmpty` is therefore modelled as `|RootName| == 0`.
- SecondRunChangesNothing, RunReportsEveryNode: the root is visited at `/Assets`, a path with a leading separator, and the abstract `IsValidFolder` is plain membership of that string. Whether Unity's `AssetDatabase` accepts such a path cannot be settled here, so the root's visit outcome is a property of the abstract filesystem only.
- The walk has no error model. IO failures and exceptions are not modelled, and neither does the source handle them.
- ProgramStructure, ArtStructure: the `ref` on their parameter has no effect in the source (the reference is never reassigned), so the model passes the folder normally.
- ArtStructure: the source adds the eight art subfolders first and fills in their sections afterwards. The model adds each subfolder and then its sections (depth-first, from a layout value). The resulting tree, with every child list in the source's order, is the same; only the order in which the objects are allocated differs.
- GenerateFolderStructure: its second half is split into the helper `BranchStructure`, and the allocation order inside the branches is the one described for ArtStructure.
- ArtStructure, ProgramStructure, ReconcileOne: their ghost parameters (`others`, the ghost tree) only carry proof information and do not exist in the source.
