/**
 A file system as a finite map from paths to entries, the tree found under a
 path, and what renaming does to trees.

 Paths are sequences of names relative to the workspace. Two paths are apart
 if neither lies within the other; trees at paths that are apart share no
 entry, so a change under one of them cannot be seen under the other. An
 empty tree stands for nothing being there at all, which is what a rename
 leaves at its source.
 */
module FileTree {

  datatype Name = Name(text: string)
  type Path = seq<Name>

  datatype Content = Content(digest: string, executable: bool)
  datatype Entry = Directory | File(content: Content)

  type Tree = map<Path, Entry>

  /** Component-wise: `a/b` is within `a`, `ab` is not. */
  predicate Within(p: Path, root: Path) {
    |root| <= |p| && p[..|root|] == root
  }

  predicate Apart(a: Path, b: Path) {
    !Within(a, b) && !Within(b, a)
  }

  function Relative(paths: set<Path>, root: Path): set<Path> {
    set q | q in paths && Within(q, root) :: q[|root|..]
  }

  /** The tree at a path; empty when there is nothing there. */
  function TreeAt(fs: Tree, root: Path): Tree {
    map r | r in Relative(fs.Keys, root) && root + r in fs :: fs[root + r]
  }

  lemma {:induction false} InTreeAt(fs: Tree, root: Path, r: Path)
    ensures r in TreeAt(fs, root) <==> root + r in fs
    ensures root + r in fs ==> TreeAt(fs, root)[r] == fs[root + r]
  {
    if root + r in fs {
      assert (root + r)[..|root|] == root && (root + r)[|root|..] == r;
      assert r in Relative(fs.Keys, root);
    }
  }

  lemma {:induction false} NothingThere(fs: Tree, root: Path)
    requires forall p :: p in fs ==> !Within(p, root)
    ensures TreeAt(fs, root) == map[]
  {
    forall r: Path
      ensures r !in TreeAt(fs, root)
    {
      InTreeAt(fs, root, r);
      WithinPlus(root, r);
    }
  }

  /** Trees that agree wherever they lie under the path. */
  lemma {:induction false} SameTree(fs: Tree, gs: Tree, a: Path, b: Path)
    requires forall r: Path :: a + r in fs <==> b + r in gs
    requires forall r: Path :: a + r in fs && b + r in gs ==> fs[a + r] == gs[b + r]
    ensures TreeAt(fs, a) == TreeAt(gs, b)
  {
    forall r: Path
      ensures r in TreeAt(fs, a) <==> r in TreeAt(gs, b)
      ensures r in TreeAt(fs, a) ==> TreeAt(fs, a)[r] == TreeAt(gs, b)[r]
    {
      InTreeAt(fs, a, r);
      InTreeAt(gs, b, r);
    }
  }

  // ----- Renaming ----------------------------------------------------------

  function Renamed(p: Path, src: Path, dst: Path): Path {
    if Within(p, src) then dst + p[|src|..] else p
  }

  /** Everything under `src` moves under `dst`, which held nothing. */
  function Moved(fs: Tree, src: Path, dst: Path): Tree {
    var targets := set p | p in fs :: Renamed(p, src, dst);
    map p | p in targets && Renamed(p, dst, src) in fs && (Within(p, dst) || !Within(p, src)) :: fs[Renamed(p, dst, src)]
  }

  lemma {:induction false} WithinSplit(p: Path, root: Path)
    requires Within(p, root)
    ensures p == root + p[|root|..]
  {
  }

  lemma {:induction false} WithinPlus(root: Path, r: Path)
    ensures Within(root + r, root) && (root + r)[|root|..] == r
  {
  }

  lemma {:induction false} ApartBelow(a: Path, b: Path, r: Path)
    requires Apart(a, b)
    ensures !Within(a + r, b)
  {
    if |b| <= |a| {
      assert (a + r)[..|b|] == a[..|b|];
    } else if |b| <= |a + r| {
      assert (a + r)[..|b|][..|a|] == a;
    }
  }

  /** What a rename does to each path. */
  lemma {:induction false} MovedAt(fs: Tree, src: Path, dst: Path, p: Path)
    requires Apart(src, dst)
    ensures Within(p, dst) ==>
      (p in Moved(fs, src, dst) <==> src + p[|dst|..] in fs)
      && (p in Moved(fs, src, dst) ==> Moved(fs, src, dst)[p] == fs[src + p[|dst|..]])
    ensures Within(p, src) ==> p !in Moved(fs, src, dst)
    ensures !Within(p, src) && !Within(p, dst) ==>
      (p in Moved(fs, src, dst) <==> p in fs) && (p in fs ==> Moved(fs, src, dst)[p] == fs[p])
  {
    var o := Renamed(p, dst, src);
    if Within(p, dst) {
      WithinSplit(p, dst);
      WithinPlus(src, p[|dst|..]);
      assert Renamed(o, src, dst) == p;
    }
    if Within(p, src) {
      WithinSplit(p, src);
      ApartBelow(src, dst, p[|src|..]);
    }
    if o in fs && !Within(p, src) {
      assert Renamed(o, src, dst) == p;
    }
  }

  lemma {:induction false} MovedTrees(fs: Tree, src: Path, dst: Path)
    requires Apart(src, dst)
    ensures TreeAt(Moved(fs, src, dst), dst) == TreeAt(fs, src)
    ensures TreeAt(Moved(fs, src, dst), src) == map[]
  {
    var gs := Moved(fs, src, dst);
    forall r: Path
      ensures dst + r in gs <==> src + r in fs
      ensures dst + r in gs ==> gs[dst + r] == fs[src + r]
    {
      WithinPlus(dst, r);
      MovedAt(fs, src, dst, dst + r);
    }
    SameTree(gs, fs, dst, src);
    forall p | p in gs
      ensures !Within(p, src)
    {
      MovedAt(fs, src, dst, p);
    }
    NothingThere(gs, src);
  }

  lemma {:induction false} MovedElsewhere(fs: Tree, src: Path, dst: Path, q: Path)
    requires Apart(src, dst) && Apart(q, src) && Apart(q, dst)
    ensures TreeAt(Moved(fs, src, dst), q) == TreeAt(fs, q)
  {
    var gs := Moved(fs, src, dst);
    forall r: Path
      ensures q + r in gs <==> q + r in fs
      ensures q + r in gs ==> gs[q + r] == fs[q + r]
    {
      ApartBelow(q, src, r);
      ApartBelow(q, dst, r);
      MovedAt(fs, src, dst, q + r);
    }
    SameTree(gs, fs, q, q);
  }
}
