// What CreateFolders (CreateProjectStructure.cs, lines 75-100) does to the
// filesystem and reports, as functions of the tree and the filesystem before
// the walk, and what those functions guarantee.

module Materializer {
  import opened FolderPaths
  import opened FileSystemModel
  import opened PathUniqueness

  /** What happened at one node; these stand in for the three Debug.Log messages. */
  datatype Action = Created | MarkerAdded | AlreadyPresent

  datatype NodeResult = NodeResult(path: string, action: Action)

  /** The filesystem after (part of) a walk, and the results reported so far. */
  datatype Run = Run(fs: FsState, results: seq<NodeResult>)

  /**
   * One node of the walk: a missing directory is created (as ParentPath/Name,
   * the way AssetDatabase.CreateFolder is called) and gets a marker; a
   * present directory without files gets a marker; anything else is left alone.
   */
  function Visit(t: Tree, fs: FsState): (r: Run)
    ensures Grows(fs, r.fs)
    ensures |r.results| == 1 && r.results[0].path == t.dirPath
    ensures t.dirPath == JoinPath(t.parentPath, t.name) ==> Ready(r.fs, t.dirPath)
    ensures t.dirPath == JoinPath(t.parentPath, t.name) ==>
              (r.results[0].action == AlreadyPresent <==> r.fs == fs)
  {
    if t.dirPath !in fs.dirs then
      var created := FsState(fs.dirs + {JoinPath(t.parentPath, t.name)}, fs.files + {FileEntry(t.dirPath, Keep)});
      assert Keep in FilesIn(created, t.dirPath);
      Run(created, [NodeResult(t.dirPath, Created)])
    else if FilesIn(fs, t.dirPath) == {} then
      var marked := fs.(files := fs.files + {FileEntry(t.dirPath, Keep)});
      assert Keep in FilesIn(marked, t.dirPath);
      Run(marked, [NodeResult(t.dirPath, MarkerAdded)])
    else
      Run(fs, [NodeResult(t.dirPath, AlreadyPresent)])
  }

  /** The whole walk: the node itself, then each child's walk in order. */
  function Walk(t: Tree, fs: FsState): (r: Run)
    ensures Grows(fs, r.fs)
    decreases t
  {
    var v := Visit(t, fs);
    var w := WalkAll(t.children, v.fs);
    Run(w.fs, v.results + w.results)
  }

  function WalkAll(ts: seq<Tree>, fs: FsState): (r: Run)
    ensures Grows(fs, r.fs)
    decreases ts
  {
    if ts == [] then Run(fs, [])
    else
      var w := WalkAll(ts[..|ts| - 1], fs);
      var v := Walk(ts[|ts| - 1], w.fs);
      Run(v.fs, w.results + v.results)
  }

  /** Walking one more tree continues from where the walk of the earlier ones stopped. */
  lemma WalkAllSnoc(ts: seq<Tree>, i: nat, fs: FsState)
    requires i < |ts|
    ensures WalkAll(ts[..i + 1], fs) ==
      Run(Walk(ts[i], WalkAll(ts[..i], fs).fs).fs,
          WalkAll(ts[..i], fs).results + Walk(ts[i], WalkAll(ts[..i], fs).fs).results)
  {
    assert ts[..i + 1][..i] == ts[..i];
  }

  function PathsOf(rs: seq<NodeResult>): seq<string>
  {
    seq(|rs|, i requires 0 <= i < |rs| => rs[i].path)
  }

  lemma PathsOfConcat(a: seq<NodeResult>, b: seq<NodeResult>)
    ensures PathsOf(a + b) == PathsOf(a) + PathsOf(b)
  {
  }

  /** The per-node outcomes, stated on the filesystem before the node is handled. */
  lemma VisitOutcome(t: Tree, fs: FsState)
    requires t.dirPath == JoinPath(t.parentPath, t.name)
    ensures t.dirPath !in fs.dirs ==>
              Visit(t, fs) == Run(FsState(fs.dirs + {t.dirPath}, fs.files + {FileEntry(t.dirPath, Keep)}),
                                  [NodeResult(t.dirPath, Created)])
    ensures t.dirPath in fs.dirs && FilesIn(fs, t.dirPath) == {} ==>
              Visit(t, fs) == Run(FsState(fs.dirs, fs.files + {FileEntry(t.dirPath, Keep)}),
                                  [NodeResult(t.dirPath, MarkerAdded)])
    ensures Ready(fs, t.dirPath) ==> Visit(t, fs) == Run(fs, [NodeResult(t.dirPath, AlreadyPresent)])
  {
  }

  // ----- Order: the results are the pre-order listing of the tree -----

  lemma {:induction false} WalkPreOrder(t: Tree, fs: FsState)
    ensures PathsOf(Walk(t, fs).results) == PreOrder(t)
    decreases t, 1
  {
    var v := Visit(t, fs);
    WalkAllPreOrder(t.children, v.fs);
    PathsOfConcat(v.results, WalkAll(t.children, v.fs).results);
  }

  lemma {:induction false} WalkAllPreOrder(ts: seq<Tree>, fs: FsState)
    ensures PathsOf(WalkAll(ts, fs).results) == PreOrderAll(ts)
    decreases ts, 0
  {
    if ts != [] {
      var w := WalkAll(ts[..|ts| - 1], fs);
      WalkAllPreOrder(ts[..|ts| - 1], fs);
      WalkPreOrder(ts[|ts| - 1], w.fs);
      PathsOfConcat(w.results, Walk(ts[|ts| - 1], w.fs).results);
    }
  }

  /** One result per node, the node's own result first. */
  lemma WalkResultShape(t: Tree, fs: FsState)
    ensures |Walk(t, fs).results| == Size(t)
    ensures Walk(t, fs).results[0] == Visit(t, fs).results[0]
  {
    WalkPreOrder(t, fs);
    PreOrderLength(t);
  }

  // ----- Effects: only the tree's directories and markers are added -----

  /** Going from `a` to `b` adds nothing but directories in `paths` and marker files inside them. */
  ghost predicate AddsOnly(a: FsState, b: FsState, paths: seq<string>)
  {
    Grows(a, b) &&
    (forall d :: d in b.dirs && d !in a.dirs ==> d in paths) &&
    (forall e :: e in b.files && e !in a.files ==> e.name == Keep && e.dir in paths)
  }

  lemma AddsOnlyConcat(a: FsState, b: FsState, c: FsState, p: seq<string>, q: seq<string>)
    requires AddsOnly(a, b, p) && AddsOnly(b, c, q)
    ensures AddsOnly(a, c, p + q)
  {
  }

  lemma {:induction false} WalkAddsOnly(t: Tree, fs: FsState)
    requires WellFormed(t)
    ensures AddsOnly(fs, Walk(t, fs).fs, PreOrder(t))
    decreases t, 1
  {
    var v := Visit(t, fs);
    WalkAllAddsOnly(t.children, v.fs);
    AddsOnlyConcat(fs, v.fs, Walk(t, fs).fs, [t.dirPath], PreOrderAll(t.children));
  }

  lemma {:induction false} WalkAllAddsOnly(ts: seq<Tree>, fs: FsState)
    requires forall i :: 0 <= i < |ts| ==> WellFormed(ts[i])
    ensures AddsOnly(fs, WalkAll(ts, fs).fs, PreOrderAll(ts))
    decreases ts, 0
  {
    if ts != [] {
      var w := WalkAll(ts[..|ts| - 1], fs);
      WalkAllAddsOnly(ts[..|ts| - 1], fs);
      WalkAddsOnly(ts[|ts| - 1], w.fs);
      AddsOnlyConcat(fs, w.fs, WalkAll(ts, fs).fs, PreOrderAll(ts[..|ts| - 1]), PreOrder(ts[|ts| - 1]));
    }
  }

  // ----- Coverage: after a walk every node's directory exists and holds a file -----

  lemma {:induction false} WalkCovers(t: Tree, fs: FsState)
    requires WellFormed(t)
    ensures forall p :: p in PreOrder(t) ==> Ready(Walk(t, fs).fs, p)
    decreases t, 1
  {
    var v := Visit(t, fs);
    var r := Walk(t, fs);
    WalkAllCovers(t.children, v.fs);
    ReadyMonotone(v.fs, r.fs, t.dirPath);
  }

  lemma {:induction false} WalkAllCovers(ts: seq<Tree>, fs: FsState)
    requires forall i :: 0 <= i < |ts| ==> WellFormed(ts[i])
    ensures forall p :: p in PreOrderAll(ts) ==> Ready(WalkAll(ts, fs).fs, p)
    decreases ts, 0
  {
    if ts != [] {
      var w := WalkAll(ts[..|ts| - 1], fs);
      var r := WalkAll(ts, fs);
      WalkAllCovers(ts[..|ts| - 1], fs);
      WalkCovers(ts[|ts| - 1], w.fs);
      forall p | p in PreOrderAll(ts[..|ts| - 1])
        ensures Ready(r.fs, p)
      {
        ReadyMonotone(w.fs, r.fs, p);
      }
    }
  }

  // ----- Stability: a walk over ready directories changes nothing -----

  ghost predicate AllAlreadyPresent(rs: seq<NodeResult>)
  {
    forall i :: 0 <= i < |rs| ==> rs[i].action == AlreadyPresent
  }

  lemma {:induction false} WalkStable(t: Tree, fs: FsState)
    requires forall p :: p in PreOrder(t) ==> Ready(fs, p)
    ensures Walk(t, fs).fs == fs
    ensures AllAlreadyPresent(Walk(t, fs).results)
    decreases t, 1
  {
    assert t.dirPath in PreOrder(t);
    WalkAllStable(t.children, fs);
  }

  lemma {:induction false} WalkAllStable(ts: seq<Tree>, fs: FsState)
    requires forall p :: p in PreOrderAll(ts) ==> Ready(fs, p)
    ensures WalkAll(ts, fs).fs == fs
    ensures AllAlreadyPresent(WalkAll(ts, fs).results)
    decreases ts, 0
  {
    if ts != [] {
      WalkAllStable(ts[..|ts| - 1], fs);
      WalkStable(ts[|ts| - 1], fs);
    }
  }

  /** A second run on the same tree reports AlreadyPresent everywhere and leaves the filesystem as the first run left it. */
  lemma Idempotent(t: Tree, fs: FsState)
    requires WellFormed(t)
    ensures Walk(t, Walk(t, fs).fs).fs == Walk(t, fs).fs
    ensures AllAlreadyPresent(Walk(t, Walk(t, fs).fs).results)
  {
    WalkCovers(t, fs);
    WalkStable(t, Walk(t, fs).fs);
  }

  /**
   * Starting from an empty filesystem, a run leaves exactly the tree's
   * directories, each holding exactly one file, the marker.
   */
  lemma FromEmpty(t: Tree)
    requires WellFormed(t)
    ensures Walk(t, FsState({}, {})).fs.dirs == set p | p in PreOrder(t)
    ensures Walk(t, FsState({}, {})).fs.files == set p | p in PreOrder(t) :: FileEntry(p, Keep)
  {
    var e0 := FsState({}, {});
    var r := Walk(t, e0);
    WalkAddsOnly(t, e0);
    WalkCovers(t, e0);
    forall p | p in PreOrder(t)
      ensures FileEntry(p, Keep) in r.fs.files
    {
      var n :| n in FilesIn(r.fs, p);
      var e :| e in r.fs.files && e.dir == p && e.name == n;
    }
  }

  // ----- Fresh directories: a walk over missing, distinct paths creates every node -----

  ghost predicate AllCreated(rs: seq<NodeResult>)
  {
    forall i :: 0 <= i < |rs| ==> rs[i].action == Created
  }

  /**
   * When the tree's dirPaths are pairwise distinct and none exists yet, every
   * node takes the Created branch: no earlier node's directory is ever one
   * that a later node looks for.
   */
  lemma {:induction false} WalkCreatesAll(t: Tree, fs: FsState)
    requires WellFormed(t) && Distinct(PreOrder(t))
    requires forall p :: p in PreOrder(t) ==> p !in fs.dirs
    ensures AllCreated(Walk(t, fs).results)
    decreases t, 1
  {
    var v := Visit(t, fs);
    assert t.dirPath in PreOrder(t);
    DistinctConcat([t.dirPath], PreOrderAll(t.children));
    assert v.fs.dirs == fs.dirs + {t.dirPath};
    WalkAllCreatesAll(t.children, v.fs);
  }

  lemma {:induction false} WalkAllCreatesAll(ts: seq<Tree>, fs: FsState)
    requires forall i :: 0 <= i < |ts| ==> WellFormed(ts[i])
    requires Distinct(PreOrderAll(ts))
    requires forall p :: p in PreOrderAll(ts) ==> p !in fs.dirs
    ensures AllCreated(WalkAll(ts, fs).results)
    decreases ts, 0
  {
    if ts != [] {
      var front := ts[..|ts| - 1];
      var last := ts[|ts| - 1];
      var w := WalkAll(front, fs);
      DistinctConcat(PreOrderAll(front), PreOrder(last));
      WalkAllCreatesAll(front, fs);
      WalkAllAddsOnly(front, fs);
      WalkCreatesAll(last, w.fs);
    }
  }

  // ----- Resuming: on a partly created tree a run only fills in what is missing -----

  /** The action the node at `p` takes, read off the filesystem as it was before the run. */
  function Expected(fs: FsState, p: string): (a: Action)
    ensures a == AlreadyPresent <==> Ready(fs, p)
  {
    if p !in fs.dirs then Created
    else if FilesIn(fs, p) == {} then MarkerAdded
    else AlreadyPresent
  }

  /** One result per path, in order, each with the action Expected gives it. */
  function ExpectedResults(fs: FsState, ps: seq<string>): (rs: seq<NodeResult>)
    ensures |rs| == |ps|
    ensures forall i :: 0 <= i < |ps| ==> rs[i] == NodeResult(ps[i], Expected(fs, ps[i]))
  {
    seq(|ps|, i requires 0 <= i < |ps| => NodeResult(ps[i], Expected(fs, ps[i])))
  }

  /** The filesystem once the directories `ps` exist and each of them that was not ready has a marker. */
  ghost function Filled(fs: FsState, ps: seq<string>): FsState
  {
    FsState(fs.dirs + (set p | p in ps),
            fs.files + (set p | p in ps && !Ready(fs, p) :: FileEntry(p, Keep)))
  }

  /** Filling in `ps` leaves every other directory, and the files in it, as it was. */
  lemma FilledOutside(fs: FsState, ps: seq<string>, q: string)
    requires q !in ps
    ensures (q in Filled(fs, ps).dirs <==> q in fs.dirs)
    ensures FilesIn(Filled(fs, ps), q) == FilesIn(fs, q)
  {
    var f := Filled(fs, ps);
    forall n | n in FilesIn(f, q)
      ensures n in FilesIn(fs, q)
    {
      var e :| e in f.files && e.dir == q && e.name == n;
    }
    forall n | n in FilesIn(fs, q)
      ensures n in FilesIn(f, q)
    {
      var e :| e in fs.files && e.dir == q && e.name == n;
    }
  }

  /** Filling in `a` and then the paths `b` that are not in `a` is filling in `a + b`. */
  lemma FilledConcat(fs: FsState, a: seq<string>, b: seq<string>)
    requires forall x :: x in b ==> x !in a
    ensures Filled(Filled(fs, a), b) == Filled(fs, a + b)
    ensures ExpectedResults(Filled(fs, a), b) == ExpectedResults(fs, b)
  {
    var fa := Filled(fs, a);
    forall q | q in b
      ensures Ready(fa, q) == Ready(fs, q) && Expected(fa, q) == Expected(fs, q)
    {
      FilledOutside(fs, a, q);
    }
    assert (set p | p in b && !Ready(fa, p) :: FileEntry(p, Keep)) ==
           (set p | p in b && !Ready(fs, p) :: FileEntry(p, Keep));
  }

  /** One visit fills in its own directory and reports the action that directory called for. */
  lemma VisitFills(t: Tree, fs: FsState)
    requires t.dirPath == JoinPath(t.parentPath, t.name)
    ensures Visit(t, fs) == Run(Filled(fs, [t.dirPath]), ExpectedResults(fs, [t.dirPath]))
  {
    var d := t.dirPath;
    assert (set p | p in [d]) == {d};
    if Ready(fs, d) {
      assert (set p | p in [d] && !Ready(fs, p) :: FileEntry(p, Keep)) == {};
    } else {
      assert (set p | p in [d] && !Ready(fs, p) :: FileEntry(p, Keep)) == {FileEntry(d, Keep)};
    }
  }

  /**
   * Whatever the filesystem holds beforehand, a walk over distinct paths
   * reports at every node the action that node's directory called for before
   * the run, and leaves the filesystem filled in: every directory of the tree
   * exists, and a marker was added exactly where a directory was not ready.
   */
  lemma {:induction false} WalkFills(t: Tree, fs: FsState)
    requires WellFormed(t) && Distinct(PreOrder(t))
    ensures Walk(t, fs) == Run(Filled(fs, PreOrder(t)), ExpectedResults(fs, PreOrder(t)))
    decreases t, 1
  {
    var v := Visit(t, fs);
    VisitFills(t, fs);
    DistinctConcat([t.dirPath], PreOrderAll(t.children));
    WalkAllFills(t.children, v.fs);
    FilledConcat(fs, [t.dirPath], PreOrderAll(t.children));
    ExpectedResultsConcat(fs, [t.dirPath], PreOrderAll(t.children));
  }

  lemma {:induction false} WalkAllFills(ts: seq<Tree>, fs: FsState)
    requires forall i :: 0 <= i < |ts| ==> WellFormed(ts[i])
    requires Distinct(PreOrderAll(ts))
    ensures WalkAll(ts, fs) == Run(Filled(fs, PreOrderAll(ts)), ExpectedResults(fs, PreOrderAll(ts)))
    decreases ts, 0
  {
    if ts == [] {
      assert Filled(fs, []) == fs;
    } else {
      var front, last := ts[..|ts| - 1], ts[|ts| - 1];
      var a, b := PreOrderAll(front), PreOrder(last);
      assert PreOrderAll(ts) == a + b;
      DistinctConcat(a, b);
      WalkAllFills(front, fs);
      var w := WalkAll(front, fs);
      WalkFills(last, w.fs);
      FilledConcat(fs, a, b);
      ExpectedResultsConcat(fs, a, b);
    }
  }

  lemma ExpectedResultsConcat(fs: FsState, a: seq<string>, b: seq<string>)
    ensures ExpectedResults(fs, a + b) == ExpectedResults(fs, a) + ExpectedResults(fs, b)
  {
  }

  /**
   * The same, node by node: the i-th result is the i-th directory of the
   * pre-order listing with the action it called for before the run.
   */
  lemma WalkOutcomes(t: Tree, fs: FsState)
    requires WellFormed(t) && Distinct(PreOrder(t))
    ensures |Walk(t, fs).results| == |PreOrder(t)|
    ensures forall i :: 0 <= i < |PreOrder(t)| ==>
              Walk(t, fs).results[i] == NodeResult(PreOrder(t)[i], Expected(fs, PreOrder(t)[i]))
    ensures Walk(t, fs).fs.dirs == fs.dirs + set p | p in PreOrder(t)
    ensures Walk(t, fs).fs.files == fs.files + set p | p in PreOrder(t) && !Ready(fs, p) :: FileEntry(p, Keep)
  {
    WalkFills(t, fs);
  }
}
