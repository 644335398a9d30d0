/**
 Installing staged trees by renames that may fail, and rolling back in reverse.

 A replacement is seen through four slots: what is at its destination, and the
 new, the old and the failed tree of its staging directory. A rename moves one
 slot's tree to another slot of the same replacement and leaves the slots of
 every other replacement, and everything outside, as they are. The two flags
 of a replacement say which renames have happened, and so what its slots hold,
 at every point at which a rename can fail.
 */
module Swap {
  import opened Results
  import opened FileTree
  import opened Restore

  const NEW := [Name("new")]
  const OLD := [Name("old")]
  const FAILED := [Name("failed")]

  datatype Replacement = Replacement(destination: Path, staging: Path, hadOld: bool, installed: bool)

  /** What a replacement's destination and staging directory hold. */
  datatype Slots = Slots(dest: Tree, staged: Tree, saved: Tree, failed: Tree)

  function SlotsAt(fs: Tree, d: Path, s: Path): Slots {
    Slots(TreeAt(fs, d), TreeAt(fs, s + NEW), TreeAt(fs, s + OLD), TreeAt(fs, s + FAILED))
  }

  function View(fs: Tree, r: Replacement): Slots {
    SlotsAt(fs, r.destination, r.staging)
  }

  /** No destination or staging directory lies within another. */
  ghost predicate Separate(rs: seq<Replacement>) {
    && (forall i, j :: 0 <= i < |rs| && 0 <= j < |rs| && i != j ==>
          Apart(rs[i].destination, rs[j].destination) && Apart(rs[i].staging, rs[j].staging))
    && (forall i, j :: 0 <= i < |rs| && 0 <= j < |rs| ==> Apart(rs[i].destination, rs[j].staging))
  }

  ghost predicate SamePaths(rs: seq<Replacement>, ts: seq<Replacement>) {
    |rs| == |ts| && forall i :: 0 <= i < |rs| ==> rs[i].destination == ts[i].destination && rs[i].staging == ts[i].staging
  }

  /** Nothing changed at a path. */
  predicate Kept(fs: Tree, gs: Tree, p: Path) {
    (p in fs <==> p in gs) && (p in fs ==> fs[p] == gs[p])
  }

  ghost predicate OnlyUnder(fs: Tree, gs: Tree, d: Path, s: Path) {
    forall p :: !Within(p, d) && !Within(p, s) ==> Kept(fs, gs, p)
  }

  ghost predicate Outside(rs: seq<Replacement>, p: Path) {
    forall i :: 0 <= i < |rs| ==> !Within(p, rs[i].destination) && !Within(p, rs[i].staging)
  }

  ghost predicate OnlyWithin(rs: seq<Replacement>, fs: Tree, gs: Tree) {
    forall p :: Outside(rs, p) ==> Kept(fs, gs, p)
  }

  // ----- One replacement at a time -----------------------------------------

  lemma {:induction false} ApartExtend(a: Path, b: Path, x: Path, y: Path)
    requires Apart(a, b)
    ensures Apart(a + x, b + y)
  {
    ApartBelow(a, b, x);
    ApartBelow(b, a, y);
    WithinLonger(a + x, b, y);
    WithinLonger(b + y, a, x);
  }

  lemma {:induction false} WithinLonger(p: Path, root: Path, x: Path)
    requires !Within(p, root)
    ensures !Within(p, root + x)
  {
    if |root + x| <= |p| {
      assert p[..|root + x|][..|root|] == p[..|root|];
      assert (root + x)[..|root|] == root;
    }
  }

  /** A change under one pair of paths leaves every tree apart from both. */
  lemma {:induction false} TreeKept(fs: Tree, gs: Tree, d: Path, s: Path, q: Path)
    requires OnlyUnder(fs, gs, d, s) && Apart(q, d) && Apart(q, s)
    ensures TreeAt(gs, q) == TreeAt(fs, q)
  {
    forall r: Path
      ensures Kept(fs, gs, q + r)
    {
      ApartBelow(q, d, r);
      ApartBelow(q, s, r);
    }
    SameTree(gs, fs, q, q);
  }

  lemma {:induction false} SlotsKept(fs: Tree, gs: Tree, d: Path, s: Path, e: Path, t: Path)
    requires OnlyUnder(fs, gs, d, s)
    requires Apart(e, d) && Apart(e, s) && Apart(t, d) && Apart(t, s)
    ensures SlotsAt(gs, e, t) == SlotsAt(fs, e, t)
  {
    TreeKept(fs, gs, d, s, e);
    forall x | x in {NEW, OLD, FAILED}
      ensures TreeAt(gs, t + x) == TreeAt(fs, t + x)
    {
      ApartExtend(t, d, x, []);
      ApartExtend(t, s, x, []);
      assert d + [] == d && s + [] == s;
      TreeKept(fs, gs, d, s, t + x);
    }
  }

  /** Working on one replacement leaves the slots of the others alone. */
  lemma {:induction false} OthersKept(rs: seq<Replacement>, fs: Tree, gs: Tree, i: nat)
    requires Separate(rs) && i < |rs| && OnlyUnder(fs, gs, rs[i].destination, rs[i].staging)
    ensures forall j :: 0 <= j < |rs| && j != i ==> View(gs, rs[j]) == View(fs, rs[j])
    ensures OnlyWithin(rs, fs, gs)
  {
    forall j | 0 <= j < |rs| && j != i
      ensures View(gs, rs[j]) == View(fs, rs[j])
    {
      SlotsKept(fs, gs, rs[i].destination, rs[i].staging, rs[j].destination, rs[j].staging);
    }
  }

  /** The four paths of a replacement are apart from each other. */
  lemma {:induction false} SlotsApart(d: Path, s: Path)
    requires Apart(d, s)
    ensures Apart(d, s + NEW) && Apart(d, s + OLD) && Apart(d, s + FAILED)
    ensures Apart(s + NEW, s + OLD) && Apart(s + NEW, s + FAILED) && Apart(s + OLD, s + FAILED)
  {
    assert d + [] == d;
    ApartExtend(d, s, [], NEW);
    ApartExtend(d, s, [], OLD);
    ApartExtend(d, s, [], FAILED);
    assert (s + NEW)[|s|] == NEW[0] && (s + OLD)[|s|] == OLD[0] && (s + FAILED)[|s|] == FAILED[0];
    assert "new" != "old" by { assert "new"[0] == 'n' && "old"[0] == 'o'; }
    assert "new" != "failed" by { assert |"new"| != |"failed"|; }
    assert "old" != "failed" by { assert |"old"| != |"failed"|; }
  }

  lemma {:induction false} RenameStaysUnder(fs: Tree, d: Path, s: Path, src: Path, dst: Path)
    requires Apart(src, dst)
    requires src == d || Within(src, s)
    requires dst == d || Within(dst, s)
    ensures OnlyUnder(fs, Moved(fs, src, dst), d, s)
  {
    forall p | !Within(p, d) && !Within(p, s)
      ensures Kept(fs, Moved(fs, src, dst), p)
    {
      OutsideBelow(p, d, s, src);
      OutsideBelow(p, d, s, dst);
      MovedAt(fs, src, dst, p);
    }
  }

  lemma {:induction false} OutsideBelow(p: Path, d: Path, s: Path, x: Path)
    requires !Within(p, d) && !Within(p, s) && (x == d || Within(x, s))
    ensures !Within(p, x)
  {
    if |x| <= |p| && x != d {
      assert p[..|x|][..|s|] == p[..|s|];
    }
  }

  // ----- The four renames --------------------------------------------------

  lemma {:induction false} Saves(fs: Tree, d: Path, s: Path)
    requires Apart(d, s)
    ensures var v := SlotsAt(fs, d, s); SlotsAt(Moved(fs, d, s + OLD), d, s) == v.(saved := v.dest, dest := map[])
    ensures OnlyUnder(fs, Moved(fs, d, s + OLD), d, s)
  {
    SlotsApart(d, s);
    MovedTrees(fs, d, s + OLD);
    MovedElsewhere(fs, d, s + OLD, s + NEW);
    MovedElsewhere(fs, d, s + OLD, s + FAILED);
    WithinPlus(s, OLD);
    RenameStaysUnder(fs, d, s, d, s + OLD);
  }

  lemma {:induction false} Installs(fs: Tree, d: Path, s: Path)
    requires Apart(d, s)
    ensures var v := SlotsAt(fs, d, s); SlotsAt(Moved(fs, s + NEW, d), d, s) == v.(dest := v.staged, staged := map[])
    ensures OnlyUnder(fs, Moved(fs, s + NEW, d), d, s)
  {
    SlotsApart(d, s);
    MovedTrees(fs, s + NEW, d);
    MovedElsewhere(fs, s + NEW, d, s + OLD);
    MovedElsewhere(fs, s + NEW, d, s + FAILED);
    WithinPlus(s, NEW);
    RenameStaysUnder(fs, d, s, s + NEW, d);
  }

  lemma {:induction false} TakesBack(fs: Tree, d: Path, s: Path)
    requires Apart(d, s)
    ensures var v := SlotsAt(fs, d, s); SlotsAt(Moved(fs, d, s + FAILED), d, s) == v.(failed := v.dest, dest := map[])
    ensures OnlyUnder(fs, Moved(fs, d, s + FAILED), d, s)
  {
    SlotsApart(d, s);
    MovedTrees(fs, d, s + FAILED);
    MovedElsewhere(fs, d, s + FAILED, s + NEW);
    MovedElsewhere(fs, d, s + FAILED, s + OLD);
    WithinPlus(s, FAILED);
    RenameStaysUnder(fs, d, s, d, s + FAILED);
  }

  lemma {:induction false} PutsBack(fs: Tree, d: Path, s: Path)
    requires Apart(d, s)
    ensures var v := SlotsAt(fs, d, s); SlotsAt(Moved(fs, s + OLD, d), d, s) == v.(dest := v.saved, saved := map[])
    ensures OnlyUnder(fs, Moved(fs, s + OLD, d), d, s)
  {
    SlotsApart(d, s);
    MovedTrees(fs, s + OLD, d);
    MovedElsewhere(fs, s + OLD, d, s + NEW);
    MovedElsewhere(fs, s + OLD, d, s + FAILED);
    WithinPlus(s, OLD);
    RenameStaysUnder(fs, d, s, s + OLD, d);
  }

  // ----- The disk ----------------------------------------------------------

  /** A tree has its own root, or there is nothing at all. */
  predicate Rooted(t: Tree) {
    t == map[] || [] in t
  }

  class Disk {
    var fs: Tree

    constructor (fs: Tree)
      ensures this.fs == fs
    {
      this.fs := fs;
    }

    /** Any rename may fail; then nothing moved. */
    method Rename(src: Path, dst: Path) returns (ok: bool)
      modifies this
      ensures ok ==> src in old(fs) && dst !in old(fs) && fs == Moved(old(fs), src, dst)
      ensures !ok ==> fs == old(fs)
    {
      var broken: bool := *;
      if broken || src !in fs || dst in fs {
        return false;
      }
      fs := Moved(fs, src, dst);
      ok := true;
    }

    /** Removing a staging directory may leave part of it behind. */
    method RemoveStaging(s: Path)
      modifies this
      ensures OnlyUnder(old(fs), fs, s, s) && forall p :: p in fs ==> p in old(fs)
    {
      var left: set<Path> := *;
      fs := map p | p in fs && (!Within(p, s) || p in left) :: fs[p];
    }
  }

  // ----- Install and roll back ---------------------------------------------

  /** How far a replacement got, told by its two flags. */
  predicate Tracks(r: Replacement, now: Slots, start: Slots) {
    if r.installed then
      now == start.(dest := start.staged, staged := map[], saved := start.dest) && (r.hadOld <==> start.dest != map[])
    else if r.hadOld then now == start.(saved := start.dest, dest := map[])
    else now == start
  }

  predicate Ready(r: Replacement, v: Slots) {
    !r.hadOld && !r.installed && Rooted(v.dest) && v.saved == map[] && v.failed == map[]
  }

  method InstallOne(disk: Disk, r: Replacement) returns (ok: bool, t: Replacement)
    requires Apart(r.destination, r.staging) && Ready(r, View(disk.fs, r))
    modifies disk
    ensures t.destination == r.destination && t.staging == r.staging
    ensures Tracks(t, View(disk.fs, r), View(old(disk.fs), r)) && (ok ==> t.installed)
    ensures OnlyUnder(old(disk.fs), disk.fs, r.destination, r.staging)
  {
    hide TreeAt, Moved, Within;
    var d, s := r.destination, r.staging;
    t := r;
    InTreeAt(disk.fs, d, []);
    assert d + [] == d;
    if d in disk.fs {
      Saves(disk.fs, d, s);
      ok := disk.Rename(d, s + OLD);
      if !ok {
        return;
      }
      t := t.(hadOld := true);
    }
    Installs(disk.fs, d, s);
    ok := disk.Rename(s + NEW, d);
    if ok {
      t := t.(installed := true);
    }
  }

  lemma {:induction false} UnderChain(a: Tree, b: Tree, c: Tree, d: Path, s: Path)
    requires OnlyUnder(a, b, d, s) && OnlyUnder(b, c, d, s)
    ensures OnlyUnder(a, c, d, s)
  {
    forall p | !Within(p, d) && !Within(p, s)
      ensures Kept(a, c, p)
    {
      assert Kept(a, b, p) && Kept(b, c, p);
    }
  }

  /** One replacement rolled back: the previous tree is at the destination
      again, or it is still in the staging directory. */
  method RollbackOne(disk: Disk, r: Replacement, ghost start: Slots) returns (ok: bool)
    requires Apart(r.destination, r.staging) && Tracks(r, View(disk.fs, r), start)
    requires start.saved == map[] && start.failed == map[]
    modifies disk
    ensures OnlyUnder(old(disk.fs), disk.fs, r.destination, r.staging)
    ensures if ok then View(disk.fs, r).dest == start.dest else View(disk.fs, r).saved == start.dest
  {
    hide TreeAt, Moved, Within;
    var d, s := r.destination, r.staging;
    ghost var begin := disk.fs;
    if r.installed {
      TakesBack(disk.fs, d, s);
      ok := disk.Rename(d, s + FAILED);
      if !ok {
        return;
      }
    }
    ghost var middle := disk.fs;
    if r.hadOld {
      PutsBack(disk.fs, d, s);
      ok := disk.Rename(s + OLD, d);
      UnderChain(begin, middle, disk.fs, d, s);
      return;
    }
    ok := true;
  }

  ghost predicate AllTrack(rs: seq<Replacement>, fs: Tree, start: Tree) {
    forall j :: 0 <= j < |rs| ==> Tracks(rs[j], View(fs, rs[j]), View(start, rs[j]))
  }

  lemma {:induction false} InstallStep(rs: seq<Replacement>, before: Tree, after: Tree, start: Tree, i: nat, t: Replacement)
    requires Separate(rs) && i < |rs| && AllTrack(rs, before, start) && View(before, rs[i]) == View(start, rs[i])
    requires OnlyUnder(before, after, rs[i].destination, rs[i].staging) && OnlyWithin(rs, start, before)
    requires t.destination == rs[i].destination && t.staging == rs[i].staging
    requires Tracks(t, View(after, rs[i]), View(before, rs[i]))
    ensures SamePaths(rs[i := t], rs) && Separate(rs[i := t]) && AllTrack(rs[i := t], after, start)
    ensures OnlyWithin(rs, start, after)
  {
    OthersKept(rs, before, after, i);
    forall p | Outside(rs, p)
      ensures Kept(start, after, p)
    {
      assert Kept(start, before, p) && Kept(before, after, p);
    }
    forall j | 0 <= j < |rs| && j != i
      ensures Tracks(rs[j], View(after, rs[j]), View(start, rs[j]))
    {
      assert Tracks(rs[j], View(before, rs[j]), View(start, rs[j]));
    }
  }

  lemma {:induction false} OutsideIsShared(rs: seq<Replacement>, ts: seq<Replacement>, fs: Tree, gs: Tree)
    requires SamePaths(rs, ts) && OnlyWithin(rs, fs, gs)
    ensures OnlyWithin(ts, fs, gs)
  {
    forall p | Outside(ts, p)
      ensures Kept(fs, gs, p)
    {
      assert Outside(rs, p);
    }
  }

  method Install(disk: Disk, reps: seq<Replacement>) returns (done: bool, rs: seq<Replacement>)
    requires Separate(reps)
    requires forall j :: 0 <= j < |reps| ==> Ready(reps[j], View(disk.fs, reps[j]))
    modifies disk
    ensures SamePaths(rs, reps) && AllTrack(rs, disk.fs, old(disk.fs))
    ensures done ==> forall j :: 0 <= j < |rs| ==> rs[j].installed
    ensures OnlyWithin(reps, old(disk.fs), disk.fs)
  {
    hide TreeAt, Moved, Within;
    ghost var start := disk.fs;
    rs := reps;
    done := true;
    var i := 0;
    while i < |reps| && done
      invariant 0 <= i <= |reps| && SamePaths(rs, reps) && Separate(rs) && AllTrack(rs, disk.fs, start)
      invariant done ==> forall j :: 0 <= j < i ==> rs[j].installed
      invariant done ==> forall j :: i <= j < |reps| ==> rs[j] == reps[j]
      invariant OnlyWithin(rs, start, disk.fs)
      decreases |reps| - i
    {
      ghost var before, was := disk.fs, rs;
      assert Tracks(rs[i], View(before, rs[i]), View(start, rs[i]));
      assert Ready(rs[i], View(start, rs[i]));
      var ok, t := InstallOne(disk, rs[i]);
      InstallStep(was, before, disk.fs, start, i, t);
      rs := rs[i := t];
      OutsideIsShared(was, rs, start, disk.fs);
      done := ok;
      i := i + 1;
    }
    OutsideIsShared(rs, reps, start, disk.fs);
  }

  /** After a failed install every destination has its previous tree, or its
      staging directory is kept and has it. */
  method Rollback(disk: Disk, rs: seq<Replacement>, ghost start: Tree) returns (kept: seq<bool>)
    requires Separate(rs) && AllTrack(rs, disk.fs, start)
    requires forall j :: 0 <= j < |rs| ==> View(start, rs[j]).saved == map[] && View(start, rs[j]).failed == map[]
    modifies disk
    ensures |kept| == |rs| && OnlyWithin(rs, old(disk.fs), disk.fs)
    ensures forall j :: 0 <= j < |rs| ==> RolledBack(rs[j], disk.fs, start, kept[j])
  {
    hide TreeAt, Moved, Within;
    ghost var begin := disk.fs;
    kept := seq(|rs|, _ => false);
    for i := |rs| downto 0
      invariant |kept| == |rs| && OnlyWithin(rs, begin, disk.fs)
      invariant forall j :: 0 <= j < i ==> Tracks(rs[j], View(disk.fs, rs[j]), View(start, rs[j]))
      invariant forall j :: i <= j < |rs| ==> RolledBack(rs[j], disk.fs, start, kept[j])
    {
      ghost var before, was := disk.fs, kept;
      assert Tracks(rs[i], View(before, rs[i]), View(start, rs[i]));
      var ok := RollbackOne(disk, rs[i], View(start, rs[i]));
      if ok {
        ghost var middle := disk.fs;
        disk.RemoveStaging(rs[i].staging);
        StagingGone(rs, middle, disk.fs, i);
        UnderEither(middle, disk.fs, rs[i].destination, rs[i].staging);
        UnderChain(before, middle, disk.fs, rs[i].destination, rs[i].staging);
      }
      kept := kept[i := !ok];
      RollbackStep(rs, begin, before, disk.fs, start, i, was, kept);
    }
  }

  lemma {:induction false} UnderEither(fs: Tree, gs: Tree, d: Path, s: Path)
    requires OnlyUnder(fs, gs, s, s)
    ensures OnlyUnder(fs, gs, d, s)
  {
  }

  lemma {:induction false} RollbackStep(rs: seq<Replacement>, begin: Tree, before: Tree, after: Tree, start: Tree, i: nat, was: seq<bool>, kept: seq<bool>)
    requires Separate(rs) && i < |rs| == |was| == |kept|
    requires OnlyWithin(rs, begin, before) && OnlyUnder(before, after, rs[i].destination, rs[i].staging)
    requires forall j :: 0 <= j < i ==> Tracks(rs[j], View(before, rs[j]), View(start, rs[j]))
    requires forall j :: i + 1 <= j < |rs| ==> RolledBack(rs[j], before, start, was[j]) && kept[j] == was[j]
    requires RolledBack(rs[i], after, start, kept[i])
    ensures OnlyWithin(rs, begin, after)
    ensures forall j :: 0 <= j < i ==> Tracks(rs[j], View(after, rs[j]), View(start, rs[j]))
    ensures forall j :: i <= j < |rs| ==> RolledBack(rs[j], after, start, kept[j])
  {
    OthersKept(rs, before, after, i);
    forall p | Outside(rs, p)
      ensures Kept(begin, after, p)
    {
      assert Kept(begin, before, p) && Kept(before, after, p);
    }
    forall j | 0 <= j < i
      ensures Tracks(rs[j], View(after, rs[j]), View(start, rs[j]))
    {
      assert Tracks(rs[j], View(before, rs[j]), View(start, rs[j]));
    }
  }

  predicate RolledBack(r: Replacement, fs: Tree, start: Tree, kept: bool) {
    if kept then View(fs, r).saved == View(start, r).dest else View(fs, r).dest == View(start, r).dest
  }

  /** Dropping a staging directory touches no destination and no other
      replacement. */
  lemma {:induction false} StagingGone(rs: seq<Replacement>, fs: Tree, gs: Tree, i: nat)
    requires Separate(rs) && i < |rs| && OnlyUnder(fs, gs, rs[i].staging, rs[i].staging)
    ensures View(gs, rs[i]).dest == View(fs, rs[i]).dest
    ensures forall j :: 0 <= j < |rs| && j != i ==> View(gs, rs[j]) == View(fs, rs[j])
    ensures OnlyWithin(rs, fs, gs)
  {
    TreeKept(fs, gs, rs[i].staging, rs[i].staging, rs[i].destination);
    OthersKept(rs, fs, gs, i);
  }
}
