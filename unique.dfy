// When the dirPaths of a folder tree are pairwise distinct. The two path
// rules of the Folder class (CreateProjectStructure.cs, lines 15-33) put a
// child's dirPath at its parent's dirPath, a separator and its name, so
// distinct sibling names give distinct paths as long as no name below the
// top node contains the separator itself.

module PathUniqueness {
  import opened FolderPaths

  /** No two positions of `xs` hold the same path. */
  ghost predicate Distinct(xs: seq<string>)
  {
    forall i, j :: 0 <= i < j < |xs| ==> xs[i] != xs[j]
  }

  lemma DistinctConcat(a: seq<string>, b: seq<string>)
    ensures Distinct(a + b) <==> Distinct(a) && Distinct(b) && (forall x :: x in a ==> x !in b)
  {
    if Distinct(a + b) {
      forall i, j | 0 <= i < j < |b|
        ensures b[i] != b[j]
      {
        assert b[i] == (a + b)[|a| + i] && b[j] == (a + b)[|a| + j];
      }
      forall x | x in a
        ensures x !in b
      {
        var i :| 0 <= i < |a| && a[i] == x;
        forall j | 0 <= j < |b|
          ensures b[j] != x
        {
          assert (a + b)[i] == x && (a + b)[|a| + j] == b[j];
        }
      }
      forall i, j | 0 <= i < j < |a|
        ensures a[i] != a[j]
      {
        assert a[i] == (a + b)[i] && a[j] == (a + b)[j];
      }
    }
    if Distinct(a) && Distinct(b) && (forall x :: x in a ==> x !in b) {
      forall i, j | 0 <= i < j < |a + b|
        ensures (a + b)[i] != (a + b)[j]
      {
        if j < |a| {
          assert (a + b)[i] == a[i] && (a + b)[j] == a[j];
        } else if i < |a| {
          assert (a + b)[i] == a[i] && (a + b)[j] == b[j - |a|];
          assert a[i] in a && b[j - |a|] in b;
        } else {
          assert (a + b)[i] == b[i - |a|] && (a + b)[j] == b[j - |a|];
        }
      }
    }
  }

  /** A list of distinct paths holds as many different paths as it has entries. */
  lemma {:induction false} DistinctCount(xs: seq<string>)
    requires Distinct(xs)
    ensures |set x | x in xs| == |xs|
  {
    if xs != [] {
      var front := xs[..|xs| - 1];
      assert xs == front + [xs[|xs| - 1]];
      DistinctConcat(front, [xs[|xs| - 1]]);
      DistinctCount(front);
      assert (set x | x in xs) == (set x | x in front) + {xs[|xs| - 1]};
    }
  }

  /** The first segment of `s`: everything before its first separator. */
  function Segment(s: string): (seg: string)
    ensures |seg| <= |s| && Sep !in seg
  {
    if s == [] || s[0] == Sep then [] else [s[0]] + Segment(s[1..])
  }

  lemma {:induction false} SegmentOfName(n: string, rest: string)
    requires Sep !in n
    ensures Segment(n) == n && Segment(n + [Sep] + rest) == n
  {
    if n == [] {
      assert ([] + [Sep] + rest)[0] == Sep;
    } else {
      assert (n + [Sep] + rest)[1..] == n[1..] + [Sep] + rest;
      SegmentOfName(n[1..], rest);
    }
  }

  /** `p` lies strictly below the directory `d`. */
  ghost predicate Below(d: string, p: string)
  {
    |p| > |d| && p[..|d| + 1] == d + [Sep]
  }

  /** `p` is the directory `d` itself or lies below it. */
  ghost predicate Within(d: string, p: string)
  {
    p == d || Below(d, p)
  }

  /** No name of a node below the top one contains the separator. */
  ghost predicate InnerNamesSepFree(t: Tree)
    decreases t
  {
    forall i :: 0 <= i < |t.children| ==> Sep !in t.children[i].name && InnerNamesSepFree(t.children[i])
  }

  function Names(ts: seq<Tree>): (ns: seq<string>)
    ensures |ns| == |ts| && forall i :: 0 <= i < |ts| ==> ns[i] == ts[i].name
  {
    seq(|ts|, i requires 0 <= i < |ts| => ts[i].name)
  }

  /** A path within the child `n` of `d` is below `d`, and its first segment there is `n`. */
  lemma BelowChild(d: string, n: string, p: string)
    requires Sep !in n && Within(JoinPath(d, n), p)
    ensures Below(d, p) && Segment(p[|d| + 1..]) == n
  {
    var c := JoinPath(d, n);
    if p == c {
      assert p[..|d| + 1] == d + [Sep];
      assert p[|d| + 1..] == n;
      SegmentOfName(n, []);
      assert n + [Sep] + [] == n + [Sep];
    } else {
      var rest := p[|c| + 1..];
      assert p == p[..|c| + 1] + rest;
      assert p[..|d| + 1] == d + [Sep];
      assert p[|d| + 1..] == n + [Sep] + rest;
      SegmentOfName(n, rest);
    }
  }

  /**
   * In a well-formed tree below a non-empty parentPath, with distinct sibling
   * names and no separator in the names below the top, the dirPaths are
   * pairwise distinct and all lie within the top node's dirPath.
   */
  lemma {:induction false} PathsUnique(t: Tree)
    requires WellFormed(t) && |t.parentPath| > 0 && SiblingsDistinct(t) && InnerNamesSepFree(t)
    ensures Distinct(PreOrder(t))
    ensures forall p :: p in PreOrder(t) ==> Within(t.dirPath, p)
    decreases t, 1
  {
    PathsUniqueAll(t.children, t.dirPath);
    DistinctConcat([t.dirPath], PreOrderAll(t.children));
  }

  lemma {:induction false} PathsUniqueAll(ts: seq<Tree>, d: string)
    requires |d| > 0
    requires forall i :: 0 <= i < |ts| ==>
               ts[i].parentPath == d && Sep !in ts[i].name &&
               WellFormed(ts[i]) && SiblingsDistinct(ts[i]) && InnerNamesSepFree(ts[i])
    requires forall i, j :: 0 <= i < j < |ts| ==> ts[i].name != ts[j].name
    ensures Distinct(PreOrderAll(ts))
    ensures forall p :: p in PreOrderAll(ts) ==> Below(d, p) && Segment(p[|d| + 1..]) in Names(ts)
    decreases ts, 0
  {
    if ts != [] {
      var front := ts[..|ts| - 1];
      var last := ts[|ts| - 1];
      PathsUniqueAll(front, d);
      PathsUnique(last);
      forall p | p in PreOrder(last)
        ensures Below(d, p) && Segment(p[|d| + 1..]) == last.name
      {
        BelowChild(d, last.name, p);
      }
      assert last.name !in Names(front);
      assert Names(ts) == Names(front) + [last.name];
      DistinctConcat(PreOrderAll(front), PreOrder(last));
    }
  }

  /** Layout names free of separators, the top name included. */
  ghost predicate ShapeNamesSepFree(s: Shape)
    decreases s
  {
    Sep !in s.name && forall i :: 0 <= i < |s.kids| ==> ShapeNamesSepFree(s.kids[i])
  }

  lemma {:induction false} GrowNamesSepFree(parentPath: string, s: Shape)
    requires ShapeNamesSepFree(s)
    ensures Sep !in Grow(parentPath, s).name && InnerNamesSepFree(Grow(parentPath, s))
    decreases s
  {
    var t := Grow(parentPath, s);
    GrowAllLength(ChildParentPath(parentPath, s.name), s.kids);
    forall i | 0 <= i < |t.children|
      ensures Sep !in t.children[i].name && InnerNamesSepFree(t.children[i])
    {
      GrowAllAt(ChildParentPath(parentPath, s.name), s.kids, i);
      GrowNamesSepFree(ChildParentPath(parentPath, s.name), s.kids[i]);
    }
  }
}
