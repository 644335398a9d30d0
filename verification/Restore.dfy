/**
 Restoring declared outputs: every root's complete tree is staged beside its
 destination, then swapped in by renames, and swapped back in reverse when one
 of the renames fails.
 */
module Restore {
  import opened Results
  import opened FileTree

  // ----- Outermost roots ---------------------------------------------------

  predicate SortedByDepth(paths: seq<Path>) {
    forall i, j :: 0 <= i < j < |paths| ==> |paths[i]| <= |paths[j]|
  }

  /** After every path that is no deeper, as a stable sort puts it. */
  function Inserted(paths: seq<Path>, p: Path): (r: seq<Path>)
    requires SortedByDepth(paths)
    ensures SortedByDepth(r) && |r| == |paths| + 1
    ensures forall q :: q in r <==> q in paths || q == p
    ensures |r| > 0 && (r[|r| - 1] == p || (|paths| > 0 && r[|r| - 1] == paths[|paths| - 1]))
  {
    if |paths| == 0 || |paths[|paths| - 1]| <= |p| then paths + [p]
    else
      var last := paths[|paths| - 1];
      var front := Inserted(paths[..|paths| - 1], p);
      assert paths == paths[..|paths| - 1] + [last];
      front + [last]
  }

  function ByDepth(paths: seq<Path>): (r: seq<Path>)
    ensures SortedByDepth(r) && |r| == |paths|
    ensures forall q :: q in r <==> q in paths
  {
    if |paths| == 0 then [] else
      assert paths == paths[..|paths| - 1] + [paths[|paths| - 1]];
      Inserted(ByDepth(paths[..|paths| - 1]), paths[|paths| - 1])
  }

  ghost predicate Antichain(paths: seq<Path>) {
    forall i, j :: 0 <= i < |paths| && 0 <= j < |paths| && i != j ==> Apart(paths[i], paths[j])
  }

  ghost predicate CoveredBy(p: Path, roots: seq<Path>) {
    exists i :: 0 <= i < |roots| && Within(p, roots[i])
  }

  method IsCovered(p: Path, roots: seq<Path>) returns (covered: bool)
    ensures covered <==> CoveredBy(p, roots)
  {
    for i := 0 to |roots|
      invariant forall k :: 0 <= k < i ==> !Within(p, roots[k])
    {
      if Within(p, roots[i]) {
        return true;
      }
    }
    covered := false;
  }

  /** The roots that lie within no other, once each: overlapping declarations
      collapse to the outermost. */
  method Collapse(declared: seq<Path>) returns (outer: seq<Path>)
    ensures Antichain(outer) && |outer| <= |declared|
    ensures forall p :: p in outer ==> p in declared
    ensures forall p :: p in declared ==> CoveredBy(p, outer)
  {
    hide Within, Apart, ByDepth;
    var roots := ByDepth(declared);
    outer := [];
    for i := 0 to |roots|
      invariant Antichain(outer) && |outer| <= i
      invariant forall p :: p in outer ==> p in roots && (i < |roots| ==> |p| <= |roots[i]|)
      invariant forall k :: 0 <= k < i ==> CoveredBy(roots[k], outer)
    {
      ghost var before := outer;
      var covered := IsCovered(roots[i], outer);
      if !covered {
        outer := outer + [roots[i]];
        NewRootIsApart(before, roots[i]);
        WithinItself(roots[i]);
        assert Within(roots[i], outer[|before|]);
      }
      CoverGrows(roots[..i], before, outer);
    }
    CoversAll(declared, roots, outer);
  }

  lemma {:induction false} WithinItself(p: Path)
    ensures Within(p, p)
  {
    assert p[..|p|] == p;
  }

  lemma {:induction false} NotWithinShallower(a: Path, root: Path)
    requires |a| <= |root| && !Within(root, a)
    ensures !Within(a, root)
  {
    assert a[..|a|] == a;
  }

  lemma {:induction false} NewRootIsApart(outer: seq<Path>, root: Path)
    requires Antichain(outer) && !CoveredBy(root, outer) && forall p :: p in outer ==> |p| <= |root|
    ensures Antichain(outer + [root])
  {
    forall i | 0 <= i < |outer|
      ensures Apart(outer[i], root)
    {
      assert !Within(root, outer[i]);
      assert outer[i] in outer;
      NotWithinShallower(outer[i], root);
    }
  }

  lemma {:induction false} CoverGrows(roots: seq<Path>, before: seq<Path>, after: seq<Path>)
    requires before <= after && forall k :: 0 <= k < |roots| ==> CoveredBy(roots[k], before)
    ensures forall k :: 0 <= k < |roots| ==> CoveredBy(roots[k], after)
  {
    forall k | 0 <= k < |roots|
      ensures CoveredBy(roots[k], after)
    {
      assert CoveredBy(roots[k], before);
      var i :| 0 <= i < |before| && Within(roots[k], before[i]);
      assert Within(roots[k], after[i]);
    }
  }

  lemma {:induction false} CoversAll(declared: seq<Path>, roots: seq<Path>, outer: seq<Path>)
    requires forall q :: q in roots <==> q in declared
    requires forall k :: 0 <= k < |roots| ==> CoveredBy(roots[k], outer)
    ensures forall p :: p in declared ==> CoveredBy(p, outer)
  {
    forall p | p in declared
      ensures CoveredBy(p, outer)
    {
      var k :| 0 <= k < |roots| && roots[k] == p;
    }
  }

  // ----- Staged trees ------------------------------------------------------

  datatype Artifact = Artifact(path: Path, content: Content)

  /** The record's content at a path; a later entry overwrites an earlier. */
  function ContentAt(files: seq<Artifact>, p: Path): Option<Content> {
    if |files| == 0 then None
    else if files[|files| - 1].path == p then Some(files[|files| - 1].content)
    else ContentAt(files[..|files| - 1], p)
  }

  /** Some file of the record lies below the path. */
  ghost predicate Above(files: seq<Artifact>, p: Path) {
    exists k :: 0 <= k < |files| && |p| < |files[k].path| && Within(files[k].path, p)
  }

  /** Exactly the record's files under a root, and the directories they need;
      a root without files is an empty directory. */
  ghost predicate ImageEntry(tree: Tree, root: Path, files: seq<Artifact>, emptyRoot: bool, r: Path) {
    && (r in tree && tree[r].File? <==> ContentAt(files, root + r).Some?)
    && (r in tree && tree[r].File? ==> ContentAt(files, root + r) == Some(tree[r].content))
    && (r in tree && tree[r].Directory? <==> Above(files, root + r) || (emptyRoot && r == []))
  }

  ghost predicate IsImage(tree: Tree, root: Path, files: seq<Artifact>) {
    forall r: Path :: ImageEntry(tree, root, files, ContentAt(files, root).None?, r)
  }

  predicate CanWrite(tree: Tree, r: Path) {
    && (forall k :: 0 <= k < |r| && r[..k] in tree ==> tree[r[..k]].Directory?)
    && (r in tree ==> tree[r].File?)
  }

  function Parents(r: Path): set<Path> {
    set k | 0 <= k < |r| :: r[..k]
  }

  /** An atomic write makes missing directories and replaces a file. */
  function Written(tree: Tree, r: Path, content: Content): Tree {
    tree + (map p | p in Parents(r) :: Directory) + map[r := File(content)]
  }

  lemma {:induction false} ContentStep(files: seq<Artifact>, i: nat, p: Path)
    requires i < |files|
    ensures ContentAt(files[..i + 1], p) == if files[i].path == p then Some(files[i].content) else ContentAt(files[..i], p)
  {
    assert files[..i + 1][..i] == files[..i];
  }

  lemma {:induction false} AboveStep(files: seq<Artifact>, i: nat, p: Path)
    requires i < |files|
    ensures Above(files[..i + 1], p) <==> Above(files[..i], p) || (|p| < |files[i].path| && Within(files[i].path, p))
  {
    assert files[..i + 1] == files[..i] + [files[i]];
    if Above(files[..i], p) {
      var k :| 0 <= k < i && |p| < |files[..i][k].path| && Within(files[..i][k].path, p);
      assert files[..i + 1][k] == files[..i][k];
    }
    if |p| < |files[i].path| && Within(files[i].path, p) {
      assert files[..i + 1][i] == files[i];
    }
  }

  lemma {:induction false} WriteKeepsEntry(tree: Tree, root: Path, files: seq<Artifact>, i: nat, emptyRoot: bool, rel: Path, r: Path)
    requires i < |files| && files[i].path == root + rel && CanWrite(tree, rel)
    requires ImageEntry(tree, root, files[..i], emptyRoot, r)
    ensures ImageEntry(Written(tree, rel, files[i].content), root, files[..i + 1], emptyRoot, r)
  {
    ContentStep(files, i, root + r);
    AboveStep(files, i, root + r);
    assert root + r == root + rel <==> r == rel by {
      assert (root + r)[|root|..] == r && (root + rel)[|root|..] == rel;
    }
    BelowIsPrefix(root, r, rel);
    assert r in Parents(rel) <==> |r| < |rel| && rel[..|r|] == r;
  }

  lemma {:induction false} BelowIsPrefix(root: Path, r: Path, rel: Path)
    ensures |r| < |rel| && rel[..|r|] == r <==> |root + r| < |root + rel| && Within(root + rel, root + r)
  {
    if |r| < |rel| {
      assert (root + rel)[..|root + r|] == root + rel[..|r|];
      assert (root + rel[..|r|])[|root|..] == rel[..|r|] && (root + r)[|root|..] == r;
    }
  }

  lemma {:induction false} SkipKeepsEntry(tree: Tree, root: Path, files: seq<Artifact>, i: nat, emptyRoot: bool, r: Path)
    requires i < |files| && !Within(files[i].path, root)
    requires ImageEntry(tree, root, files[..i], emptyRoot, r)
    ensures ImageEntry(tree, root, files[..i + 1], emptyRoot, r)
  {
    ContentStep(files, i, root + r);
    AboveStep(files, i, root + r);
    WithinPlus(root, r);
    var path := files[i].path;
    assert |root + r| <= |path| ==> path[..|root + r|][..|root|] == path[..|root|];
  }

  /** Builds the staged tree of a root; making its directory and any write may
      fail. */
  method Stage(root: Path, files: seq<Artifact>) returns (tree: Option<Tree>)
    ensures tree.Some? ==> IsImage(tree.value, root, files)
  {
    var empty := ContentAt(files, root).None?;
    var t: Tree := if empty then map[[] := Directory] else map[];
    var noRoot: bool := *;
    if empty && noRoot {
      return None;
    }
    for i := 0 to |files|
      invariant forall r: Path :: ImageEntry(t, root, files[..i], empty, r)
    {
      var broken: bool := *;
      ghost var before, taken := t, files[..i + 1];
      if Within(files[i].path, root) {
        var rel := files[i].path[|root|..];
        if broken || !CanWrite(t, rel) {
          return None;
        }
        t := Written(t, rel, files[i].content);
        WithinSplit(files[i].path, root);
        forall r: Path
          ensures ImageEntry(t, root, taken, empty, r)
        {
          WriteKeepsEntry(before, root, files, i, empty, rel, r);
        }
      } else {
        forall r: Path
          ensures ImageEntry(t, root, taken, empty, r)
        {
          SkipKeepsEntry(before, root, files, i, empty, r);
        }
      }
    }
    assert files[..|files|] == files;
    tree := Some(t);
  }
}
