/**
 Which packages a change can reach: those whose public surface changed, and
 everything that depends on them, however indirectly.
 */
module Impact {

  datatype PackageId = PackageId(text: string)

  datatype Package = Package(source: string, surface: string, dependencies: seq<PackageId>)

  type Snapshot = map<PackageId, Package>

  predicate SourceChanged(before: Snapshot, after: Snapshot, id: PackageId) {
    id in after && (id in before ==> before[id].source != after[id].source)
  }

  predicate SurfaceChanged(before: Snapshot, after: Snapshot, id: PackageId) {
    id in after && (id in before ==> before[id].surface != after[id].surface)
  }

  /** The package names the dependency, perhaps more than once. */
  predicate DependsOn(after: Snapshot, id: PackageId, dependency: PackageId) {
    id in after && dependency in after[id].dependencies
  }

  ghost predicate Closed(after: Snapshot, s: set<PackageId>) {
    forall id, dependency :: dependency in s && DependsOn(after, id, dependency) ==> id in s
  }

  /** The smallest set with the seeds that is closed under "depends on". */
  ghost predicate LeastClosed(after: Snapshot, seeds: set<PackageId>, s: set<PackageId>) {
    && seeds <= s && Closed(after, s)
    && forall t: set<PackageId> :: seeds <= t && Closed(after, t) ==> s <= t
  }

  method ChangedPackages(before: Snapshot, after: Snapshot) returns (source: set<PackageId>, surface: set<PackageId>)
    ensures forall id :: id in source <==> SourceChanged(before, after, id)
    ensures forall id :: id in surface <==> SurfaceChanged(before, after, id)
  {
    source, surface := {}, {};
    var left := after.Keys;
    while left != {}
      invariant left <= after.Keys
      invariant forall id :: id in source <==> id !in left && SourceChanged(before, after, id)
      invariant forall id :: id in surface <==> id !in left && SurfaceChanged(before, after, id)
      decreases |left|
    {
      var id :| id in left;
      if id in before {
        if before[id].source != after[id].source {
          source := source + {id};
        }
        if before[id].surface != after[id].surface {
          surface := surface + {id};
        }
      } else {
        source, surface := source + {id}, surface + {id};
      }
      left := left - {id};
    }
  }

  ghost predicate IsReverse(after: Snapshot, reverse: map<PackageId, seq<PackageId>>) {
    && (forall d, id :: d in reverse && id in reverse[d] ==> DependsOn(after, id, d))
    && (forall d, id :: DependsOn(after, id, d) ==> d in reverse && id in reverse[d])
  }

  method ReverseDependencies(after: Snapshot) returns (reverse: map<PackageId, seq<PackageId>>)
    ensures IsReverse(after, reverse)
  {
    reverse := map[];
    var left := after.Keys;
    while left != {}
      invariant left <= after.Keys
      invariant forall d, id :: d in reverse && id in reverse[d] ==> DependsOn(after, id, d)
      invariant forall d, id :: id !in left && DependsOn(after, id, d) ==> d in reverse && id in reverse[d]
      decreases |left|
    {
      var id :| id in left;
      var dependencies := after[id].dependencies;
      for k := 0 to |dependencies|
        invariant forall d, x :: d in reverse && x in reverse[d] ==> DependsOn(after, x, d)
        invariant forall d, x :: x !in left && DependsOn(after, x, d) ==> d in reverse && x in reverse[d]
        invariant forall j :: 0 <= j < k ==> dependencies[j] in reverse && id in reverse[dependencies[j]]
      {
        var d := dependencies[k];
        var listed := if d in reverse then reverse[d] else [];
        assert DependsOn(after, id, d);
        reverse := reverse[d := listed + [id]];
      }
      left := left - {id};
    }
  }

  /** Everything already found, except what waits in the frontier, has its
      dependents found too. */
  ghost predicate Explored(after: Snapshot, affected: set<PackageId>, frontier: seq<PackageId>) {
    forall id, d :: d in affected && d !in frontier && DependsOn(after, id, d) ==> id in affected
  }

  ghost predicate WithinEvery(after: Snapshot, seeds: set<PackageId>, affected: set<PackageId>) {
    forall t: set<PackageId> :: seeds <= t && Closed(after, t) ==> affected <= t
  }

  /** Adds the dependents of one package that were not found before, and puts
      them in the frontier. */
  method AddDependents(after: Snapshot, reverse: map<PackageId, seq<PackageId>>, ghost seeds: set<PackageId>,
                       found: set<PackageId>, waiting: seq<PackageId>, changed: PackageId)
    returns (affected: set<PackageId>, frontier: seq<PackageId>)
    requires IsReverse(after, reverse) && found <= after.Keys && changed in found
    requires WithinEvery(after, seeds, found) && forall d :: d in waiting ==> d in found
    ensures found <= affected <= after.Keys && WithinEvery(after, seeds, affected)
    ensures waiting <= frontier && (affected == found ==> frontier == waiting)
    ensures forall d :: d in frontier ==> d in affected
    ensures forall d :: d in affected && d !in found ==> d in frontier
    ensures changed in reverse ==> forall j :: 0 <= j < |reverse[changed]| ==> reverse[changed][j] in affected
  {
    hide WithinEvery, Closed, DependsOn, IsReverse;
    affected, frontier := found, waiting;
    var dependents := if changed in reverse then reverse[changed] else [];
    for k := 0 to |dependents|
      invariant found <= affected <= after.Keys
      invariant waiting <= frontier && (affected == found ==> frontier == waiting)
      invariant forall d :: d in frontier ==> d in affected
      invariant forall d :: d in affected && d !in found ==> d in frontier
      invariant forall j :: 0 <= j < k ==> dependents[j] in affected
      invariant WithinEvery(after, seeds, affected)
    {
      var downstream := dependents[k];
      ListedDepends(after, reverse, changed, k);
      if downstream !in affected {
        OneMoreWithin(after, seeds, affected, downstream, changed);
        affected := affected + {downstream};
        frontier := frontier + [downstream];
      }
    }
  }

  method Downstream(after: Snapshot, reverse: map<PackageId, seq<PackageId>>, seeds: set<PackageId>) returns (affected: set<PackageId>)
    requires IsReverse(after, reverse) && seeds <= after.Keys
    ensures LeastClosed(after, seeds, affected)
  {
    hide Explored, WithinEvery, Closed, DependsOn, LeastClosed, IsReverse;
    affected := seeds;
    var frontier := ElementsOf(seeds);
    Starts(after, seeds, frontier);
    while |frontier| > 0
      invariant seeds <= affected <= after.Keys
      invariant forall d :: d in frontier ==> d in affected
      invariant Explored(after, affected, frontier) && WithinEvery(after, seeds, affected)
      decreases |after.Keys - affected|, |frontier|
    {
      var changed := frontier[|frontier| - 1];
      ghost var waiting, found := frontier, affected;
      frontier := frontier[..|frontier| - 1];
      assert waiting == frontier + [changed];
      affected, frontier := AddDependents(after, reverse, seeds, affected, frontier, changed);
      AllListed(after, reverse, changed, affected);
      StillExplored(after, found, waiting, affected, frontier, changed);
      if affected != found {
        FewerLeft(after.Keys, found, affected);
      }
    }
    assert frontier == [];
    Finished(after, seeds, affected);
  }

  lemma {:induction false} Starts(after: Snapshot, seeds: set<PackageId>, frontier: seq<PackageId>)
    requires forall x :: x in frontier <==> x in seeds
    ensures Explored(after, seeds, frontier) && WithinEvery(after, seeds, seeds)
  {
  }

  lemma {:induction false} Finished(after: Snapshot, seeds: set<PackageId>, affected: set<PackageId>)
    requires seeds <= affected && Explored(after, affected, []) && WithinEvery(after, seeds, affected)
    ensures LeastClosed(after, seeds, affected)
  {
  }

  lemma {:induction false} ListedDepends(after: Snapshot, reverse: map<PackageId, seq<PackageId>>, d: PackageId, k: nat)
    requires IsReverse(after, reverse) && d in reverse && k < |reverse[d]|
    ensures DependsOn(after, reverse[d][k], d) && reverse[d][k] in after
  {
    assert reverse[d][k] in reverse[d];
  }

  lemma {:induction false} AllListed(after: Snapshot, reverse: map<PackageId, seq<PackageId>>, d: PackageId, affected: set<PackageId>)
    requires IsReverse(after, reverse)
    requires d in reverse ==> forall j :: 0 <= j < |reverse[d]| ==> reverse[d][j] in affected
    ensures forall id :: DependsOn(after, id, d) ==> id in affected
  {
  }

  lemma {:induction false} OneMoreWithin(after: Snapshot, seeds: set<PackageId>, affected: set<PackageId>, id: PackageId, d: PackageId)
    requires WithinEvery(after, seeds, affected) && d in affected && DependsOn(after, id, d)
    ensures WithinEvery(after, seeds, affected + {id})
  {
  }

  lemma {:induction false} StillExplored(after: Snapshot, found: set<PackageId>, waiting: seq<PackageId>, affected: set<PackageId>, frontier: seq<PackageId>, changed: PackageId)
    requires Explored(after, found, waiting) && found <= affected && |waiting| > 0 && waiting[|waiting| - 1] == changed
    requires waiting[..|waiting| - 1] <= frontier && forall d :: d in affected && d !in found ==> d in frontier
    requires forall id :: DependsOn(after, id, changed) ==> id in affected
    ensures Explored(after, affected, frontier)
  {
    forall id, d | d in affected && d !in frontier && DependsOn(after, id, d)
      ensures id in affected
    {
      assert waiting == waiting[..|waiting| - 1] + [changed];
      assert d !in waiting || d == changed;
    }
  }

  lemma {:induction false} FewerLeft(all: set<PackageId>, found: set<PackageId>, affected: set<PackageId>)
    requires found < affected <= all
    ensures |all - affected| < |all - found|
  {
    var x :| x in affected && x !in found;
    assert all - affected < all - found;
    Smaller(all - affected, all - found);
  }

  lemma {:induction false} Smaller(a: set<PackageId>, b: set<PackageId>)
    requires a < b
    ensures |a| < |b|
  {
    assert b == a + (b - a);
    assert |b| == |a| + |b - a|;
  }

  method ElementsOf(s: set<PackageId>) returns (r: seq<PackageId>)
    ensures forall x :: x in r <==> x in s
  {
    r := [];
    var left := s;
    while left != {}
      invariant left <= s && forall x :: x in r <==> x in s && x !in left
      decreases |left|
    {
      var x :| x in left;
      r := r + [x];
      left := left - {x};
    }
  }

  /** Between two snapshots: what changed, what changed only inside, and the
      smallest set that holds the changed surfaces and all their dependents. */
  method CompareSnapshots(before: Snapshot, after: Snapshot)
    returns (source: set<PackageId>, surface: set<PackageId>, private: set<PackageId>, affected: set<PackageId>)
    ensures forall id :: id in source <==> SourceChanged(before, after, id)
    ensures forall id :: id in surface <==> SurfaceChanged(before, after, id)
    ensures private == source - surface
    ensures LeastClosed(after, surface, affected)
  {
    source, surface := ChangedPackages(before, after);
    var reverse := ReverseDependencies(after);
    affected := Downstream(after, reverse, surface);
    private := source - surface;
  }

  /** A path from a dependent down to a package it reaches. */
  ghost predicate Reaches(after: Snapshot, path: seq<PackageId>) {
    |path| > 0 && forall i :: 0 <= i < |path| - 1 ==> DependsOn(after, path[i], path[i + 1])
  }

  lemma {:induction false} PathsStayInside(after: Snapshot, s: set<PackageId>, path: seq<PackageId>)
    requires Closed(after, s) && Reaches(after, path) && path[|path| - 1] in s
    ensures path[0] in s
  {
    if |path| > 1 {
      assert DependsOn(after, path[0], path[1]);
      assert forall i :: 0 <= i < |path| - 2 ==> path[1..][i] == path[i + 1] && DependsOn(after, path[i + 1], path[i + 1 + 1]);
      PathsStayInside(after, s, path[1..]);
    }
  }

  ghost predicate ReachesSeed(after: Snapshot, seeds: set<PackageId>, id: PackageId) {
    exists path :: Reaches(after, path) && path[0] == id && path[|path| - 1] in seeds
  }

  /** In the least closed set is exactly what reaches a seed by dependencies,
      cycles or not. */
  lemma {:induction false} LeastClosedIsReachability(after: Snapshot, seeds: set<PackageId>, s: set<PackageId>, id: PackageId)
    requires LeastClosed(after, seeds, s) && seeds <= after.Keys
    ensures id in s <==> ReachesSeed(after, seeds, id)
  {
    if ReachesSeed(after, seeds, id) {
      var path :| Reaches(after, path) && path[0] == id && path[|path| - 1] in seeds;
      PathsStayInside(after, s, path);
    }
    var r := set x | x in after && ReachesSeed(after, seeds, x);
    SeedsReach(after, seeds);
    forall x, d | d in r && DependsOn(after, x, d)
      ensures x in r
    {
      OneStepMore(after, seeds, x, d);
    }
    assert Closed(after, r);
  }

  lemma {:induction false} SeedsReach(after: Snapshot, seeds: set<PackageId>)
    ensures forall x :: x in seeds ==> ReachesSeed(after, seeds, x)
  {
    forall x | x in seeds
      ensures ReachesSeed(after, seeds, x)
    {
      assert Reaches(after, [x]) && [x][0] == x;
    }
  }

  lemma {:induction false} OneStepMore(after: Snapshot, seeds: set<PackageId>, x: PackageId, d: PackageId)
    requires ReachesSeed(after, seeds, d) && DependsOn(after, x, d)
    ensures ReachesSeed(after, seeds, x)
  {
    var path :| Reaches(after, path) && path[0] == d && path[|path| - 1] in seeds;
    var longer := [x] + path;
    assert longer[0] == x && longer[|longer| - 1] == path[|path| - 1];
    assert Reaches(after, longer) by {
      forall i | 0 <= i < |longer| - 1
        ensures DependsOn(after, longer[i], longer[i + 1])
      {
        if i > 0 {
          assert longer[i] == path[i - 1] && longer[i + 1] == path[i - 1 + 1];
        }
      }
    }
  }
}
