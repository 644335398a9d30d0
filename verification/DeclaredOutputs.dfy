/**
 A declared action's outputs restored as a whole: checked against its inputs,
 staged beside their destinations, installed, and rolled back on failure.

 The stages follow the operation. Nothing under a destination changes before
 every tree is staged; the renames touch only destinations and staging
 directories, which lie in none of each other; and whatever is left afterwards
 is one of the outcomes `RestoreOutputs` lists. Each step of the disk may fail,
 so its contract speaks of both ways it can end.
 */
module DeclaredOutputs {
  import opened Results
  import opened FileTree
  import opened Restore
  import opened Swap

  datatype Outcome =
    | Refused
    | NotStarted
    | Restored
    | RolledBackAll
    | BackedUp(saved: set<Path>)

  const STATE_DIRECTORY := [Name(".bellows")]

  // ----- Which outputs may be restored -------------------------------------

  /** No output is empty, inside the state directory, or overlaps an input. */
  predicate OutputAllowed(inputs: seq<Path>, output: Path) {
    && |output| > 0 && !Within(output, STATE_DIRECTORY)
    && forall i :: 0 <= i < |inputs| ==> Apart(inputs[i], output)
  }

  predicate OutputsAllowed(inputs: seq<Path>, outputs: seq<Path>) {
    forall k :: 0 <= k < |outputs| ==> OutputAllowed(inputs, outputs[k])
  }

  method ValidateOutputRoots(inputs: seq<Path>, outputs: seq<Path>) returns (ok: bool)
    ensures ok <==> OutputsAllowed(inputs, outputs)
  {
    for k := 0 to |outputs|
      invariant forall m :: 0 <= m < k ==> OutputAllowed(inputs, outputs[m])
    {
      if |outputs[k]| == 0 || Within(outputs[k], STATE_DIRECTORY) {
        assert !OutputAllowed(inputs, outputs[k]);
        return false;
      }
      for i := 0 to |inputs|
        invariant forall m :: 0 <= m < i ==> Apart(inputs[m], outputs[k])
      {
        if Within(inputs[i], outputs[k]) || Within(outputs[k], inputs[i]) {
          assert !OutputAllowed(inputs, outputs[k]);
          return false;
        }
      }
    }
    ok := true;
  }

  // ----- Staging directories -----------------------------------------------

  /** A staging directory sits next to the destination under a drawn name. */
  function StagingOf(d: Path, name: Name): Path
    requires |d| > 0
  {
    d[..|d| - 1] + [name]
  }

  function Plan(outer: seq<Path>, names: seq<Name>): seq<Replacement>
    requires |outer| <= |names| && forall i :: 0 <= i < |outer| ==> |outer[i]| > 0
  {
    seq(|outer|, i requires 0 <= i < |outer| => Replacement(outer[i], StagingOf(outer[i], names[i]), false, false))
  }

  /** The drawn names are distinct and occur nowhere yet. */
  ghost predicate NamesAreNew(names: seq<Name>, fs: Tree, paths: seq<Path>) {
    && (forall i, j :: 0 <= i < |names| && 0 <= j < |names| && names[i] == names[j] ==> i == j)
    && (forall p, i :: p in fs && 0 <= i < |names| ==> names[i] !in p)
    && (forall k, i :: 0 <= k < |paths| && 0 <= i < |names| ==> names[i] !in paths[k])
  }

  /** A path without the drawn name is apart from the staging directory,
      unless the destination lies below it. */
  lemma {:induction false} ApartFromStaging(q: Path, d: Path, name: Name)
    requires |d| > 0 && name !in q
    ensures !Within(q, StagingOf(d, name))
    ensures Within(StagingOf(d, name), q) ==> Within(d, q) && |q| < |d|
  {
    var s := StagingOf(d, name);
    assert s[|s| - 1] == name;
    if |s| <= |q| {
      assert q[|s| - 1] in q;
      assert q[..|s|][|s| - 1] == q[|s| - 1];
    } else {
      assert s[..|q|] == d[..|q|];
    }
  }

  lemma {:induction false} StagingsApart(d: Path, e: Path, n: Name, m: Name)
    requires |d| > 0 && |e| > 0 && n != m && n !in d && n !in e && m !in d && m !in e
    ensures Apart(StagingOf(d, n), StagingOf(e, m))
  {
    OneWayApart(d, e, n, m);
    OneWayApart(e, d, m, n);
  }

  lemma {:induction false} OneWayApart(d: Path, e: Path, n: Name, m: Name)
    requires |d| > 0 && |e| > 0 && n != m && m !in d
    ensures !Within(StagingOf(d, n), StagingOf(e, m))
  {
    var s, t := StagingOf(d, n), StagingOf(e, m);
    assert t[|t| - 1] == m;
    if |t| <= |s| {
      assert s[..|t|][|t| - 1] == s[|t| - 1];
      if |t| < |s| {
        assert s[|t| - 1] == d[|t| - 1] && d[|t| - 1] in d;
      }
    }
  }

  lemma {:induction false} PlanIsSeparate(outer: seq<Path>, names: seq<Name>, fs: Tree)
    requires |outer| <= |names| && Antichain(outer) && NamesAreNew(names, fs, outer)
    requires forall i :: 0 <= i < |outer| ==> |outer[i]| > 0
    ensures Separate(Plan(outer, names))
  {
    var rs := Plan(outer, names);
    forall i, j | 0 <= i < |rs| && 0 <= j < |rs| && i != j
      ensures Apart(rs[i].destination, rs[j].destination) && Apart(rs[i].staging, rs[j].staging)
    {
      StagingsApart(outer[i], outer[j], names[i], names[j]);
    }
    forall i, j | 0 <= i < |rs| && 0 <= j < |rs|
      ensures Apart(rs[i].destination, rs[j].staging)
    {
      ApartFromStaging(outer[i], outer[j], names[j]);
    }
  }

  lemma {:induction false} StagingStartsEmpty(fs: Tree, d: Path, name: Name, x: Path)
    requires |d| > 0 && forall p :: p in fs ==> name !in p
    ensures TreeAt(fs, StagingOf(d, name) + x) == map[]
  {
    forall p | p in fs
      ensures !Within(p, StagingOf(d, name) + x)
    {
      ApartFromStaging(p, d, name);
      WithinLonger(p, StagingOf(d, name), x);
    }
    NothingThere(fs, StagingOf(d, name) + x);
  }

  // ----- Staging -----------------------------------------------------------

  /** Only missing directories above the destination were made. */
  ghost predicate GrewAbove(fs: Tree, gs: Tree, d: Path) {
    forall p :: Kept(fs, gs, p) || NewAbove(fs, gs, d, p)
  }

  predicate NewAbove(fs: Tree, gs: Tree, d: Path, p: Path) {
    p !in fs && p in gs && gs[p].Directory? && |p| < |d| && Within(d, p)
  }

  lemma {:induction false} GrowthKeepsTree(fs: Tree, gs: Tree, d: Path, q: Path)
    requires GrewAbove(fs, gs, d) && (q == d || !Within(d, q))
    ensures TreeAt(gs, q) == TreeAt(fs, q)
  {
    forall r: Path
      ensures Kept(fs, gs, q + r)
    {
      if |q + r| <= |d| {
        assert d[..|q + r|] == q + r ==> d[..|q|] == (q + r)[..|q|] == q;
      }
    }
    SameTree(gs, fs, q, q);
  }

  /** Making the directories above the destination; each may fail, and what is
      not a directory stops it. */
  method MakeParents(disk: Disk, d: Path) returns (ok: bool)
    modifies disk
    ensures GrewAbove(old(disk.fs), disk.fs, d)
  {
    ghost var start := disk.fs;
    var k := 1;
    while k < |d|
      invariant 1 <= k && GrewAbove(start, disk.fs, d)
      decreases |d| - k
    {
      var broken: bool := *;
      if d[..k] in disk.fs {
        if !disk.fs[d[..k]].Directory? {
          return false;
        }
      } else if broken {
        return false;
      } else {
        ghost var before := disk.fs;
        disk.fs := disk.fs[d[..k] := Directory];
        OneMoreParent(start, before, d, k);
      }
      k := k + 1;
    }
    ok := true;
  }

  lemma {:induction false} OneMoreParent(start: Tree, fs: Tree, d: Path, k: nat)
    requires GrewAbove(start, fs, d) && 1 <= k < |d| && d[..k] !in fs
    ensures GrewAbove(start, fs[d[..k] := Directory], d)
  {
    var gs := fs[d[..k] := Directory];
    forall p
      ensures Kept(start, gs, p) || NewAbove(start, gs, d, p)
    {
      assert Kept(start, fs, p) || NewAbove(start, fs, d, p);
      assert d[..k][..k] == d[..k];
    }
  }

  function Below(at: Path, paths: set<Path>): set<Path> {
    set r | r in paths :: at + r
  }

  /** The tree put at a path that held nothing. */
  function Planted(fs: Tree, at: Path, tree: Tree): Tree {
    map p | p in fs.Keys + Below(at, tree.Keys) && ((Within(p, at) && p[|at|..] in tree) || p in fs) ::
      if Within(p, at) && p[|at|..] in tree then tree[p[|at|..]] else fs[p]
  }

  lemma {:induction false} PlantedAt(fs: Tree, at: Path, tree: Tree, r: Path)
    ensures r in tree ==> at + r in Planted(fs, at, tree) && Planted(fs, at, tree)[at + r] == tree[r]
    ensures r !in tree ==> Kept(fs, Planted(fs, at, tree), at + r)
  {
    WithinPlus(at, r);
    assert r in tree ==> at + r in Below(at, tree.Keys);
  }

  lemma {:induction false} PlantedIsThere(fs: Tree, at: Path, tree: Tree)
    requires TreeAt(fs, at) == map[]
    ensures TreeAt(Planted(fs, at, tree), at) == tree
    ensures OnlyUnder(fs, Planted(fs, at, tree), at, at)
  {
    var gs := Planted(fs, at, tree);
    forall r: Path
      ensures r in TreeAt(gs, at) <==> r in tree
      ensures r in tree ==> TreeAt(gs, at)[r] == tree[r]
    {
      PlantedRoot(fs, at, tree, r);
    }
    forall p | !Within(p, at)
      ensures Kept(fs, gs, p)
    {
    }
  }

  lemma {:induction false} PlantedRoot(fs: Tree, at: Path, tree: Tree, r: Path)
    requires TreeAt(fs, at) == map[]
    ensures r in TreeAt(Planted(fs, at, tree), at) <==> r in tree
    ensures r in tree ==> TreeAt(Planted(fs, at, tree), at)[r] == tree[r]
  {
    hide Planted;
    InTreeAt(fs, at, r);
    InTreeAt(Planted(fs, at, tree), at, r);
    PlantedAt(fs, at, tree, r);
  }

  /** Creates the staging directory with the complete tree in it; on failure
      it may have been created in part. */
  method StageAt(disk: Disk, r: Replacement, files: seq<Artifact>) returns (staged: Option<Tree>)
    requires Apart(r.destination, r.staging)
    requires View(disk.fs, r) == Slots(View(disk.fs, r).dest, map[], map[], map[])
    modifies disk
    ensures OnlyUnder(old(disk.fs), disk.fs, r.destination, r.staging)
    ensures View(disk.fs, r).dest == View(old(disk.fs), r).dest
    ensures staged.Some? ==>
      View(disk.fs, r) == Slots(View(old(disk.fs), r).dest, staged.value, map[], map[]) && IsImage(staged.value, r.destination, files)
  {
    hide TreeAt, Planted, Within, IsImage;
    var broken: bool := *;
    if broken {
      return None;
    }
    ghost var start := disk.fs;
    var s := r.staging;
    disk.fs := disk.fs[s := Directory];
    StagingMade(start, r);
    ghost var made := disk.fs;
    staged := Stage(r.destination, files);
    if staged.Some? {
      disk.fs := Planted(disk.fs, s + NEW, staged.value);
      TreePlanted(made, r, staged.value);
      UnderChain(start, made, disk.fs, r.destination, s);
    }
  }

  lemma {:induction false} StagingMade(fs: Tree, r: Replacement)
    requires Apart(r.destination, r.staging)
    ensures var gs := fs[r.staging := Directory]; OnlyUnder(fs, gs, r.destination, r.staging) && View(gs, r) == View(fs, r)
  {
    var s := r.staging;
    var gs := fs[s := Directory];
    assert s[..|s|] == s;
    TreeKept(fs, gs, s, s, r.destination);
    forall x: Path | |x| > 0
      ensures TreeAt(gs, s + x) == TreeAt(fs, s + x)
    {
      forall y: Path
        ensures Kept(fs, gs, s + x + y)
      {
        assert |s + x + y| > |s|;
      }
      SameTree(gs, fs, s + x, s + x);
    }
  }

  lemma {:induction false} TreePlanted(fs: Tree, r: Replacement, tree: Tree)
    requires Apart(r.destination, r.staging) && View(fs, r) == Slots(View(fs, r).dest, map[], map[], map[])
    ensures var gs := Planted(fs, r.staging + NEW, tree);
      OnlyUnder(fs, gs, r.destination, r.staging) && View(gs, r) == Slots(View(fs, r).dest, tree, map[], map[])
  {
    var d, s := r.destination, r.staging;
    var gs := Planted(fs, s + NEW, tree);
    PlantedIsThere(fs, s + NEW, tree);
    SlotsApart(d, s);
    TreeKept(fs, gs, s + NEW, s + NEW, d);
    TreeKept(fs, gs, s + NEW, s + NEW, s + OLD);
    TreeKept(fs, gs, s + NEW, s + NEW, s + FAILED);
    forall p | !Within(p, d) && !Within(p, s)
      ensures Kept(fs, gs, p)
    {
      WithinLonger(p, s, NEW);
    }
  }

  // ----- The whole restore -------------------------------------------------

  /** Staged so far: the first trees are in place beside their destinations,
      and every destination is as it was. */
  ghost predicate Prepared(rs: seq<Replacement>, start: Tree, fs: Tree, images: seq<Tree>) {
    |images| <= |rs| && forall j :: 0 <= j < |rs| ==> PreparedOne(rs[j], start, fs, if j < |images| then images[j] else map[])
  }

  predicate PreparedOne(r: Replacement, start: Tree, fs: Tree, image: Tree) {
    View(fs, r) == Slots(TreeAt(start, r.destination), image, map[], map[])
  }

  ghost predicate DestinationsKept(rs: seq<Replacement>, start: Tree, fs: Tree) {
    forall j :: 0 <= j < |rs| ==> TreeAt(fs, rs[j].destination) == TreeAt(start, rs[j].destination)
  }

  /** Outside destinations and staging directories, nothing but missing
      directories above a destination. */
  ghost predicate OutsideKept(rs: seq<Replacement>, start: Tree, fs: Tree) {
    forall p :: Outside(rs, p) ==> Kept(start, fs, p) || exists j :: 0 <= j < |rs| && NewAbove(start, fs, rs[j].destination, p)
  }

  lemma {:induction false} OutsideStays(rs: seq<Replacement>, start: Tree, fs: Tree, gs: Tree)
    requires OutsideKept(rs, start, fs) && OnlyWithin(rs, fs, gs)
    ensures OutsideKept(rs, start, gs)
  {
    forall p | Outside(rs, p)
      ensures Kept(start, gs, p) || exists j :: 0 <= j < |rs| && NewAbove(start, gs, rs[j].destination, p)
    {
      assert Kept(fs, gs, p);
      if !Kept(start, fs, p) {
        var j :| 0 <= j < |rs| && NewAbove(start, fs, rs[j].destination, p);
        assert NewAbove(start, gs, rs[j].destination, p);
      }
    }
  }

  lemma {:induction false} OutsideGrows(rs: seq<Replacement>, start: Tree, fs: Tree, gs: Tree, i: nat)
    requires i < |rs| && OutsideKept(rs, start, fs) && GrewAbove(fs, gs, rs[i].destination)
    ensures OutsideKept(rs, start, gs)
  {
    forall p | Outside(rs, p)
      ensures Kept(start, gs, p) || exists j :: 0 <= j < |rs| && NewAbove(start, gs, rs[j].destination, p)
    {
      if Kept(fs, gs, p) {
        if !Kept(start, fs, p) {
          var j :| 0 <= j < |rs| && NewAbove(start, fs, rs[j].destination, p);
          assert NewAbove(start, gs, rs[j].destination, p);
        }
      } else {
        assert NewAbove(fs, gs, rs[i].destination, p);
        if Kept(start, fs, p) {
          assert NewAbove(start, gs, rs[i].destination, p);
        }
      }
    }
  }

  /** Making the directories above one destination changes no tree at a
      destination or in a staging directory. */
  lemma {:induction false} GrowthKeepsPrepared(rs: seq<Replacement>, start: Tree, fs: Tree, gs: Tree, images: seq<Tree>, i: nat)
    requires Separate(rs) && i < |rs| && Prepared(rs, start, fs, images) && GrewAbove(fs, gs, rs[i].destination)
    ensures Prepared(rs, start, gs, images)
  {
    forall j | 0 <= j < |rs|
      ensures View(gs, rs[j]) == View(fs, rs[j])
    {
      var d, e, s := rs[i].destination, rs[j].destination, rs[j].staging;
      GrowthKeepsTree(fs, gs, d, e);
      forall x | x in {NEW, OLD, FAILED}
        ensures TreeAt(gs, s + x) == TreeAt(fs, s + x)
      {
        WithinLonger(d, s, x);
        assert |s + x| > |s|;
        GrowthKeepsTree(fs, gs, d, s + x);
      }
    }
  }

  lemma {:induction false} StagingKeepsPrepared(rs: seq<Replacement>, start: Tree, fs: Tree, gs: Tree, images: seq<Tree>, image: Tree)
    requires Separate(rs) && Prepared(rs, start, fs, images) && |images| < |rs|
    requires OnlyUnder(fs, gs, rs[|images|].destination, rs[|images|].staging)
    requires View(gs, rs[|images|]) == Slots(TreeAt(start, rs[|images|].destination), image, map[], map[])
    ensures Prepared(rs, start, gs, images + [image])
  {
    var i := |images|;
    OthersKept(rs, fs, gs, i);
    forall j | 0 <= j < |rs|
      ensures PreparedOne(rs[j], start, gs, if j < i + 1 then (images + [image])[j] else map[])
    {
      assert PreparedOne(rs[j], start, fs, if j < i then images[j] else map[]);
    }
  }

  /** A failure while staging one root leaves every destination as it was. */
  lemma {:induction false} PreparedKeepsDestinations(rs: seq<Replacement>, start: Tree, fs: Tree, images: seq<Tree>)
    requires Prepared(rs, start, fs, images)
    ensures DestinationsKept(rs, start, fs)
  {
    forall j | 0 <= j < |rs|
      ensures TreeAt(fs, rs[j].destination) == TreeAt(start, rs[j].destination)
    {
      assert PreparedOne(rs[j], start, fs, if j < |images| then images[j] else map[]);
    }
  }

  method DropStagings(disk: Disk, rs: seq<Replacement>)
    requires Separate(rs)
    modifies disk
    ensures OnlyWithin(rs, old(disk.fs), disk.fs) && DestinationsKept(rs, old(disk.fs), disk.fs)
  {
    hide TreeAt, Within;
    ghost var start := disk.fs;
    for i := 0 to |rs|
      invariant OnlyWithin(rs, start, disk.fs) && DestinationsKept(rs, start, disk.fs)
    {
      ghost var before := disk.fs;
      disk.RemoveStaging(rs[i].staging);
      StagingGone(rs, before, disk.fs, i);
      DropStep(rs, start, before, disk.fs);
    }
  }

  lemma {:induction false} DropStep(rs: seq<Replacement>, start: Tree, fs: Tree, gs: Tree)
    requires OnlyWithin(rs, start, fs) && DestinationsKept(rs, start, fs) && OnlyWithin(rs, fs, gs)
    requires forall j :: 0 <= j < |rs| ==> View(gs, rs[j]).dest == View(fs, rs[j]).dest
    ensures OnlyWithin(rs, start, gs) && DestinationsKept(rs, start, gs)
  {
    forall p | Outside(rs, p)
      ensures Kept(start, gs, p)
    {
      assert Kept(start, fs, p) && Kept(fs, gs, p);
    }
    forall j | 0 <= j < |rs|
      ensures TreeAt(gs, rs[j].destination) == TreeAt(start, rs[j].destination)
    {
      assert View(gs, rs[j]).dest == View(fs, rs[j]).dest;
    }
  }

  method StageAll(disk: Disk, rs: seq<Replacement>, files: seq<Artifact>) returns (ok: bool, ghost images: seq<Tree>)
    requires Separate(rs) && Prepared(rs, disk.fs, disk.fs, [])
    modifies disk
    ensures Prepared(rs, old(disk.fs), disk.fs, images) || (!ok && DestinationsKept(rs, old(disk.fs), disk.fs))
    ensures OutsideKept(rs, old(disk.fs), disk.fs)
    ensures ok ==> |images| == |rs| && forall j :: 0 <= j < |rs| ==> IsImage(images[j], rs[j].destination, files)
  {
    hide TreeAt, Within, IsImage, Outside, GrewAbove;
    ghost var start := disk.fs;
    images := [];
    for i := 0 to |rs|
      invariant |images| == i && Prepared(rs, start, disk.fs, images) && OutsideKept(rs, start, disk.fs)
      invariant forall j :: 0 <= j < i ==> IsImage(images[j], rs[j].destination, files)
    {
      ghost var before := disk.fs;
      ok := MakeParents(disk, rs[i].destination);
      GrowthKeepsPrepared(rs, start, before, disk.fs, images, i);
      OutsideGrows(rs, start, before, disk.fs, i);
      if !ok {
        return;
      }
      ghost var grown := disk.fs;
      assert PreparedOne(rs[i], start, grown, map[]);
      var staged := StageAt(disk, rs[i], files);
      OthersKept(rs, grown, disk.fs, i);
      OutsideStays(rs, start, grown, disk.fs);
      if staged.None? {
        OneFailedStaging(rs, start, grown, disk.fs, images, i);
        return false, images;
      }
      StagingKeepsPrepared(rs, start, grown, disk.fs, images, staged.value);
      images := images + [staged.value];
    }
    ok := true;
  }

  lemma {:induction false} OneFailedStaging(rs: seq<Replacement>, start: Tree, fs: Tree, gs: Tree, images: seq<Tree>, i: nat)
    requires i < |rs| && Prepared(rs, start, fs, images)
    requires View(gs, rs[i]).dest == View(fs, rs[i]).dest
    requires forall j :: 0 <= j < |rs| && j != i ==> View(gs, rs[j]) == View(fs, rs[j])
    ensures DestinationsKept(rs, start, gs)
  {
    hide View, TreeAt, Prepared;
    PreparedKeepsDestinations(rs, start, fs, images);
    forall j | 0 <= j < |rs|
      ensures TreeAt(gs, rs[j].destination) == TreeAt(start, rs[j].destination)
    {
      SameViewSameTree(rs[j], fs, gs);
    }
  }

  lemma {:induction false} SameViewSameTree(r: Replacement, fs: Tree, gs: Tree)
    requires View(gs, r).dest == View(fs, r).dest
    ensures TreeAt(gs, r.destination) == TreeAt(fs, r.destination)
  {
    hide TreeAt;
  }

  /** Every path has its parent. */
  ghost predicate ParentClosed(fs: Tree) {
    forall p :: p in fs && |p| > 0 ==> p[..|p| - 1] in fs
  }

  lemma {:induction false} AncestorsExist(fs: Tree, d: Path, r: Path)
    requires ParentClosed(fs) && d + r in fs
    ensures d in fs
    decreases |r|
  {
    if |r| > 0 {
      assert (d + r)[..|d + r| - 1] == d + r[..|r| - 1];
      AncestorsExist(fs, d, r[..|r| - 1]);
    } else {
      assert d + r == d;
    }
  }

  lemma {:induction false} TreesAreRooted(fs: Tree, d: Path)
    requires ParentClosed(fs)
    ensures Rooted(TreeAt(fs, d))
  {
    if TreeAt(fs, d) != map[] {
      var r :| r in TreeAt(fs, d);
      InTreeAt(fs, d, r);
      AncestorsExist(fs, d, r);
      assert d + [] == d;
      InTreeAt(fs, d, []);
    }
  }

  lemma {:induction false} PlanIsPrepared(outer: seq<Path>, names: seq<Name>, fs: Tree)
    requires |outer| <= |names| && NamesAreNew(names, fs, outer)
    requires forall i :: 0 <= i < |outer| ==> |outer[i]| > 0
    ensures Prepared(Plan(outer, names), fs, fs, [])
  {
    var rs := Plan(outer, names);
    forall j | 0 <= j < |rs|
      ensures PreparedOne(rs[j], fs, fs, map[])
    {
      StagingStartsEmpty(fs, outer[j], names[j], NEW);
      StagingStartsEmpty(fs, outer[j], names[j], OLD);
      StagingStartsEmpty(fs, outer[j], names[j], FAILED);
    }
  }

  lemma {:induction false} PreparedIsReady(rs: seq<Replacement>, start: Tree, fs: Tree, images: seq<Tree>)
    requires Prepared(rs, start, fs, images) && ParentClosed(start)
    requires forall j :: 0 <= j < |rs| ==> !rs[j].hadOld && !rs[j].installed
    ensures forall j :: 0 <= j < |rs| ==> Ready(rs[j], View(fs, rs[j]))
  {
    forall j | 0 <= j < |rs|
      ensures Ready(rs[j], View(fs, rs[j]))
    {
      assert PreparedOne(rs[j], start, fs, if j < |images| then images[j] else map[]);
      TreesAreRooted(start, rs[j].destination);
    }
  }

  /** An input lies apart from everything a restore touches. */
  lemma {:induction false} InputsStay(rs: seq<Replacement>, start: Tree, fs: Tree, input: Path)
    requires OutsideKept(rs, start, fs)
    requires forall j :: 0 <= j < |rs| ==> Apart(input, rs[j].destination) && Apart(input, rs[j].staging)
    ensures TreeAt(fs, input) == TreeAt(start, input)
  {
    forall r: Path
      ensures Kept(start, fs, input + r)
    {
      forall j | 0 <= j < |rs|
        ensures !Within(input + r, rs[j].destination) && !Within(input + r, rs[j].staging) && !NewAbove(start, fs, rs[j].destination, input + r)
      {
        ApartBelow(input, rs[j].destination, r);
        ApartBelow(input, rs[j].staging, r);
        WithinLonger(rs[j].destination, input, r);
      }
      assert Outside(rs, input + r);
    }
    SameTree(fs, start, input, input);
  }

  ghost predicate AllRestored(outer: seq<Path>, fs: Tree, files: seq<Artifact>) {
    forall i :: 0 <= i < |outer| ==> IsImage(TreeAt(fs, outer[i]), outer[i], files)
  }

  ghost predicate AllPrevious(outer: seq<Path>, start: Tree, fs: Tree) {
    forall i :: 0 <= i < |outer| ==> TreeAt(fs, outer[i]) == TreeAt(start, outer[i])
  }

  /** The previous tree is at its destination or in a kept staging directory. */
  ghost predicate PreviousSomewhere(p: Path, start: Tree, fs: Tree, saved: set<Path>) {
    TreeAt(fs, p) == TreeAt(start, p) || exists s :: s in saved && TreeAt(fs, s + OLD) == TreeAt(start, p)
  }

  ghost predicate NothingLost(outer: seq<Path>, start: Tree, fs: Tree, saved: set<Path>) {
    forall i :: 0 <= i < |outer| ==> PreviousSomewhere(outer[i], start, fs, saved)
  }

  lemma {:induction false} InstalledAll(rs: seq<Replacement>, start: Tree, staged: Tree, fs: Tree, images: seq<Tree>, files: seq<Artifact>, outer: seq<Path>)
    requires |outer| == |rs| == |images| && forall j :: 0 <= j < |rs| ==> rs[j].destination == outer[j]
    requires Prepared(rs, start, staged, images) && AllTrack(rs, fs, staged)
    requires forall j :: 0 <= j < |rs| ==> rs[j].installed
    requires forall j :: 0 <= j < |rs| ==> IsImage(images[j], rs[j].destination, files)
    ensures AllRestored(outer, fs, files)
  {
    forall j | 0 <= j < |rs|
      ensures IsImage(TreeAt(fs, outer[j]), outer[j], files)
    {
      assert PreparedOne(rs[j], start, staged, images[j]);
      assert Tracks(rs[j], View(fs, rs[j]), View(staged, rs[j]));
    }
  }

  lemma {:induction false} RolledBackNothingLost(rs: seq<Replacement>, start: Tree, staged: Tree, fs: Tree, kept: seq<bool>, saved: set<Path>, outer: seq<Path>)
    requires |outer| == |rs| == |kept| && forall j :: 0 <= j < |rs| ==> rs[j].destination == outer[j]
    requires DestinationsKept(rs, start, staged)
    requires forall j :: 0 <= j < |rs| ==> RolledBack(rs[j], fs, staged, kept[j])
    requires forall j :: 0 <= j < |rs| && kept[j] ==> rs[j].staging in saved
    ensures NothingLost(outer, start, fs, saved)
    ensures saved == {} ==> AllPrevious(outer, start, fs)
  {
    forall j | 0 <= j < |rs|
      ensures if kept[j] then TreeAt(fs, rs[j].staging + OLD) == TreeAt(start, outer[j]) else TreeAt(fs, outer[j]) == TreeAt(start, outer[j])
    {
      assert RolledBack(rs[j], fs, staged, kept[j]);
    }
  }

  function Saved(rs: seq<Replacement>, kept: seq<bool>): set<Path>
    requires |rs| == |kept|
  {
    set j | 0 <= j < |rs| && kept[j] :: rs[j].staging
  }

  lemma {:induction false} RenamedPaths(rs: seq<Replacement>, ts: seq<Replacement>, start: Tree, fs: Tree, images: seq<Tree>)
    requires SamePaths(rs, ts) && Prepared(rs, start, fs, images) && Separate(rs)
    ensures Prepared(ts, start, fs, images) && Separate(ts)
    ensures forall j :: 0 <= j < |ts| ==> View(fs, ts[j]).saved == map[] && View(fs, ts[j]).failed == map[]
  {
    forall j | 0 <= j < |ts|
      ensures PreparedOne(ts[j], start, fs, if j < |images| then images[j] else map[])
    {
      assert PreparedOne(rs[j], start, fs, if j < |images| then images[j] else map[]);
    }
  }

  /** Swaps the staged trees in, or swaps them back. */
  method Replace(disk: Disk, rs: seq<Replacement>, ghost start: Tree, ghost images: seq<Tree>, files: seq<Artifact>, outer: seq<Path>)
    returns (outcome: Outcome)
    requires Separate(rs) && Prepared(rs, start, disk.fs, images) && ParentClosed(start) && OutsideKept(rs, start, disk.fs)
    requires |outer| == |rs| == |images| && forall j :: 0 <= j < |rs| ==> rs[j].destination == outer[j] && !rs[j].hadOld && !rs[j].installed
    requires forall j :: 0 <= j < |rs| ==> IsImage(images[j], rs[j].destination, files)
    modifies disk
    ensures outcome.Restored? || outcome.RolledBackAll? || outcome.BackedUp?
    ensures outcome.Restored? ==> AllRestored(outer, disk.fs, files)
    ensures outcome.RolledBackAll? ==> AllPrevious(outer, start, disk.fs)
    ensures outcome.BackedUp? ==> NothingLost(outer, start, disk.fs, outcome.saved)
    ensures OutsideKept(rs, start, disk.fs)
  {
    hide TreeAt, Within, IsImage, Outside, Prepared, OutsideKept, NothingLost, AllPrevious, AllRestored, AllTrack, Ready, RolledBack, View, Separate, OnlyWithin, DestinationsKept, ParentClosed;
    ghost var staged := disk.fs;
    PreparedIsReady(rs, start, staged, images);
    PreparedKeepsDestinations(rs, start, staged, images);
    var done, ts := Install(disk, rs);
    RenamedPaths(rs, ts, start, staged, images);
    OutsideStays(rs, start, staged, disk.fs);
    ghost var installed := disk.fs;
    if done {
      InstalledAll(ts, start, staged, installed, images, files, outer);
      DropStagings(disk, rs);
      OutsideStays(rs, start, installed, disk.fs);
      DroppedKeepsRestored(rs, outer, installed, disk.fs, files);
      return Restored;
    }
    PreparedKeepsDestinations(ts, start, staged, images);
    var kept := Rollback(disk, ts, staged);
    OutsideIsShared(ts, rs, installed, disk.fs);
    OutsideStays(rs, start, installed, disk.fs);
    var saved := Saved(ts, kept);
    RolledBackNothingLost(ts, start, staged, disk.fs, kept, saved, outer);
    outcome := if saved == {} then RolledBackAll else BackedUp(saved);
  }

  lemma {:induction false} DroppedKeepsRestored(rs: seq<Replacement>, outer: seq<Path>, fs: Tree, gs: Tree, files: seq<Artifact>)
    requires |outer| == |rs| && forall j :: 0 <= j < |rs| ==> rs[j].destination == outer[j]
    requires AllRestored(outer, fs, files) && DestinationsKept(rs, fs, gs)
    ensures AllRestored(outer, gs, files)
  {
    forall i | 0 <= i < |outer|
      ensures TreeAt(gs, outer[i]) == TreeAt(fs, outer[i])
    {
      assert TreeAt(gs, rs[i].destination) == TreeAt(fs, rs[i].destination);
    }
  }

  /** Restore is all or nothing. Whichever step fails, either every outermost
      root holds exactly the record's files, or every one holds its previous
      tree, or, where swapping back failed too, its previous tree is in a
      staging directory that is kept. Inputs are never touched. */
  method RestoreOutputs(disk: Disk, inputs: seq<Path>, outputs: seq<Path>, files: seq<Artifact>, names: seq<Name>)
    returns (outcome: Outcome, outer: seq<Path>)
    requires |names| == |outputs| && ParentClosed(disk.fs)
    requires NamesAreNew(names, disk.fs, outputs + inputs)
    modifies disk
    ensures outcome.Refused? <==> !OutputsAllowed(inputs, outputs)
    ensures outcome.Refused? ==> disk.fs == old(disk.fs)
    ensures !outcome.Refused? ==> Antichain(outer) && forall p :: p in outputs ==> CoveredBy(p, outer)
    ensures outcome.Restored? ==> AllRestored(outer, disk.fs, files)
    ensures outcome.NotStarted? || outcome.RolledBackAll? ==> AllPrevious(outer, old(disk.fs), disk.fs)
    ensures outcome.BackedUp? ==> NothingLost(outer, old(disk.fs), disk.fs, outcome.saved)
    ensures forall i :: 0 <= i < |inputs| ==> TreeAt(disk.fs, inputs[i]) == TreeAt(old(disk.fs), inputs[i])
  {
    hide TreeAt, Within, IsImage, Outside, Prepared, OutsideKept, NothingLost, AllPrevious, AllRestored, AllTrack, Ready, RolledBack, View, Separate, OnlyWithin, DestinationsKept, ParentClosed, OutputsAllowed, Antichain, CoveredBy, Plan;
    outer := [];
    var allowed := ValidateOutputRoots(inputs, outputs);
    if !allowed {
      return Refused, outer;
    }
    outer := Collapse(outputs);
    ghost var start := disk.fs;
    OuterIsAllowed(inputs, outputs, outer, names, start);
    var rs := Plan(outer, names);
    PlanIsSeparate(outer, names, start);
    PlanIsPrepared(outer, names, start);
    PlanFollowsOuter(outer, names);
    var staged, images := StageAll(disk, rs, files);
    if !staged {
      ghost var before := disk.fs;
      NotStaged(rs, start, before, images);
      DropStagings(disk, rs);
      OutsideStays(rs, start, before, disk.fs);
      StillPrevious(rs, outer, start, before, disk.fs);
      outcome := NotStarted;
    } else {
      outcome := Replace(disk, rs, start, images, files, outer);
    }
    InputsStayAll(inputs, outputs, outer, names, start, disk.fs);
  }

  lemma {:induction false} NotStaged(rs: seq<Replacement>, start: Tree, fs: Tree, images: seq<Tree>)
    requires Prepared(rs, start, fs, images) || DestinationsKept(rs, start, fs)
    ensures DestinationsKept(rs, start, fs)
  {
    if Prepared(rs, start, fs, images) {
      PreparedKeepsDestinations(rs, start, fs, images);
    }
  }

  lemma {:induction false} StillPrevious(rs: seq<Replacement>, outer: seq<Path>, start: Tree, fs: Tree, gs: Tree)
    requires |outer| == |rs| && forall j :: 0 <= j < |rs| ==> rs[j].destination == outer[j]
    requires DestinationsKept(rs, start, fs) && DestinationsKept(rs, fs, gs)
    ensures AllPrevious(outer, start, gs)
  {
    forall i | 0 <= i < |outer|
      ensures TreeAt(gs, outer[i]) == TreeAt(start, outer[i])
    {
      assert TreeAt(gs, rs[i].destination) == TreeAt(fs, rs[i].destination) == TreeAt(start, rs[i].destination);
    }
  }

  lemma {:induction false} OuterIsAllowed(inputs: seq<Path>, outputs: seq<Path>, outer: seq<Path>, names: seq<Name>, fs: Tree)
    requires OutputsAllowed(inputs, outputs) && NamesAreNew(names, fs, outputs + inputs)
    requires forall p :: p in outer ==> p in outputs
    ensures forall i :: 0 <= i < |outer| ==> |outer[i]| > 0
    ensures NamesAreNew(names, fs, outer)
    ensures forall i, k :: 0 <= i < |outer| && 0 <= k < |inputs| ==> Apart(inputs[k], outer[i])
  {
    forall i | 0 <= i < |outer|
      ensures |outer[i]| > 0 && (forall n :: 0 <= n < |names| ==> names[n] !in outer[i])
      ensures forall k :: 0 <= k < |inputs| ==> Apart(inputs[k], outer[i])
    {
      assert outer[i] in outer;
      var m :| 0 <= m < |outputs| && outputs[m] == outer[i];
      assert OutputAllowed(inputs, outputs[m]) && (outputs + inputs)[m] == outer[i];
    }
  }

  lemma {:induction false} PlanFollowsOuter(outer: seq<Path>, names: seq<Name>)
    requires |outer| <= |names| && forall i :: 0 <= i < |outer| ==> |outer[i]| > 0
    ensures var rs := Plan(outer, names); |rs| == |outer| && forall j :: 0 <= j < |rs| ==> rs[j].destination == outer[j] && !rs[j].hadOld && !rs[j].installed
  {
  }

  lemma {:induction false} InputsStayAll(inputs: seq<Path>, outputs: seq<Path>, outer: seq<Path>, names: seq<Name>, start: Tree, fs: Tree)
    requires OutputsAllowed(inputs, outputs) && NamesAreNew(names, start, outputs + inputs)
    requires |outer| <= |names| && (forall p :: p in outer ==> p in outputs) && forall i :: 0 <= i < |outer| ==> |outer[i]| > 0
    requires OutsideKept(Plan(outer, names), start, fs)
    ensures forall k :: 0 <= k < |inputs| ==> TreeAt(fs, inputs[k]) == TreeAt(start, inputs[k])
  {
    OuterIsAllowed(inputs, outputs, outer, names, start);
    var rs := Plan(outer, names);
    forall k | 0 <= k < |inputs|
      ensures TreeAt(fs, inputs[k]) == TreeAt(start, inputs[k])
    {
      assert (outputs + inputs)[|outputs| + k] == inputs[k];
      forall j | 0 <= j < |rs|
        ensures Apart(inputs[k], rs[j].destination) && Apart(inputs[k], rs[j].staging)
      {
        assert Apart(inputs[k], outer[j]);
        ApartFromStaging(inputs[k], outer[j], names[j]);
      }
      InputsStay(rs, start, fs, inputs[k]);
    }
  }
}
