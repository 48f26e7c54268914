// An abstract filesystem standing in for Unity's AssetDatabase and System.IO
// as CreateFolders uses them (CreateProjectStructure.cs, lines 75-100):
// a set of directory paths and a set of files, each file named by the
// directory that holds it and its own name.

module FileSystemModel {
  import opened FolderPaths

  /** The name of the placeholder file written into otherwise empty directories. */
  const Keep: string := ".keep"

  /** A file: the path of the directory holding it, and its name inside that directory. */
  datatype FileEntry = FileEntry(dir: string, name: string)

  datatype FsState = FsState(dirs: set<string>, files: set<FileEntry>)

  /** The names of the files directly inside `dir` (subdirectories are not files). */
  function FilesIn(fs: FsState, dir: string): set<string>
  {
    set e | e in fs.files && e.dir == dir :: e.name
  }

  /** `dir` exists and holds at least one file: the state a run leaves every node in. */
  ghost predicate Ready(fs: FsState, dir: string)
  {
    dir in fs.dirs && FilesIn(fs, dir) != {}
  }

  /** `b` has every directory and every file of `a`. */
  ghost predicate Grows(a: FsState, b: FsState)
  {
    a.dirs <= b.dirs && a.files <= b.files
  }

  /** A ready directory stays ready when the filesystem only grows. */
  lemma ReadyMonotone(a: FsState, b: FsState, dir: string)
    requires Grows(a, b) && Ready(a, dir)
    ensures Ready(b, dir)
  {
    var n :| n in FilesIn(a, dir);
    var e :| e in a.files && e.dir == dir && e.name == n;
    assert n in FilesIn(b, dir);
  }

  /** The filesystem as the core sees it; its operations are the foreign calls the source makes. */
  class FileSystem {
    var dirs: set<string>
    var files: set<FileEntry>

    function State(): FsState
      reads this
    {
      FsState(dirs, files)
    }

    constructor (dirs0: set<string>, files0: set<FileEntry>)
      ensures State() == FsState(dirs0, files0)
    {
      dirs := dirs0;
      files := files0;
    }

    /** AssetDatabase.IsValidFolder: the directory is present. */
    predicate IsValidFolder(path: string): (present: bool)
      reads this
      ensures present <==> path in State().dirs
    {
      path in dirs
    }

    /** Directory.GetFiles, by name: the files directly inside `path`. */
    function GetFiles(path: string): (names: set<string>)
      reads this
      ensures forall n :: n in names <==> FileEntry(path, n) in files
    {
      FilesIn(State(), path)
    }

    /** AssetDatabase.CreateFolder(parentFolder, newFolderName): adds the directory parentFolder/newFolderName. */
    method CreateFolder(parentFolder: string, newFolderName: string)
      modifies this
      ensures State() == old(State()).(dirs := old(dirs) + {JoinPath(parentFolder, newFolderName)})
    {
      dirs := dirs + {JoinPath(parentFolder, newFolderName)};
    }

    /** File.Create on dir/name: adds the (empty) file; contents are not modelled. */
    method CreateFile(dir: string, name: string)
      modifies this
      ensures State() == old(State()).(files := old(files) + {FileEntry(dir, name)})
    {
      files := files + {FileEntry(dir, name)};
    }
  }
}
