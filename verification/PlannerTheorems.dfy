/**
 What the planner promises, read off its contract: both budgets hold or
 nothing more can go, eviction follows the last use, every freed byte is
 accounted for, and the plan evicts no more than it must.
 */
module PlannerTheorems {
  import opened Results
  import opened Planner

  lemma {:induction false} MoreEvictedMoreDead(s: Snapshot, some: set<nat>, more: set<nat>)
    requires |s.referrers| == |s.blobs| && some <= more
    ensures Dead(s, some) <= Dead(s, more)
  {
  }

  lemma {:induction false} BytesMonotone(s: Snapshot, small: set<nat>, large: set<nat>)
    requires small <= large
    ensures Bytes(s, small) <= Bytes(s, large)
  {
    BytesSplit(s, large, small);
  }

  /** A unit's place in the eviction order. */
  lemma {:induction false} PlaceOf(s: Snapshot, o: GcOptions, u: nat) returns (k: nat)
    requires u < |s.units|
    ensures k < |EvictionOrder(s, o)| && EvictionOrder(s, o)[k] == u
  {
    assert u in EvictionOrder(s, o);
    k :| 0 <= k < |EvictionOrder(s, o)| && EvictionOrder(s, o)[k] == u;
  }

  /** Having been reached by step `j` is having a place before `j`. */
  lemma {:induction false} ReachedIffBefore(s: Snapshot, o: GcOptions, order: seq<nat>, j: nat, k: nat)
    requires Sorted(s, o, order) && j <= |order| && k < |order|
    ensures order[k] in order[..j] <==> k < j
  {
    if k < j {
      assert order[..j][k] == order[k];
    } else {
      forall l | 0 <= l < j
        ensures order[..j][l] != order[k]
      {
        assert Before(s, o, order[l], order[k]);
      }
    }
  }

  /** The executable budget holds of what survives the whole plan, including
      what the overall pass evicts afterwards. */
  lemma {:induction false} MeetsExecutableBudget(s: Snapshot, o: GcOptions, now: nat, p: Plan, i: nat, j: nat)
    requires Planned(s, o, now, p, i, j) && o.maxExecutableBytes.Some?
    ensures ExecutableBytes(s, EvictedBy(p)) <= o.maxExecutableBytes.value
  {
    var order := EvictionOrder(s, o);
    var first := FirstExecutables(s, order, i);
    MoreEvictedMoreDead(s, first, EvictedBy(p));
    BytesMonotone(s, ExecutableOnly(s) - Dead(s, EvictedBy(p)), ExecutableOnly(s) - Dead(s, first));
    if i == |order| {
      assert order[..i] == order;
      forall b | b in ExecutableOnly(s)
        ensures b in Dead(s, first)
      {
        assert BlobOk(s, b);
      }
      assert ExecutableOnly(s) - Dead(s, first) == {};
      BytesBelowNone(s.blobs, |s.blobs|);
    }
  }

  /** Every obsolete candidate goes, whatever the budgets. */
  lemma {:induction false} ObsoleteAllEvicted(s: Snapshot, o: GcOptions, now: nat, p: Plan, i: nat, j: nat, u: nat)
    requires Planned(s, o, now, p, i, j) && u < |s.units| && Obsolete(o, s.units[u])
    ensures u in EvictedBy(p)
  {
    var order := EvictionOrder(s, o);
    var k := PlaceOf(s, o, u);
    ReachedIffBefore(s, o, order, j, k);
    assert j < k ==> Before(s, o, order[j], order[k]);
  }

  /** Either everything left fits, or every record went and only blobs too
      young to judge remain. */
  lemma {:induction false} MeetsOverallBudget(s: Snapshot, o: GcOptions, now: nat, p: Plan, i: nat, j: nat)
    requires Planned(s, o, now, p, i, j)
    ensures p.bytesAfter <= o.maxBytes
      || ((forall u :: 0 <= u < |s.units| ==> u in EvictedBy(p))
          && p.bytesAfter == Bytes(s, Orphans(s) - OldOrphans(s, now)))
  {
    var order := EvictionOrder(s, o);
    if j == |order| {
      assert order[..j] == order;
      forall u | 0 <= u < |s.units|
        ensures u in EvictedBy(p)
      {
        assert u in order;
      }
      forall b | b in Referenced(s)
        ensures b in Dead(s, EvictedBy(p))
      {
        assert BlobOk(s, b);
      }
      assert Surviving(s, now, EvictedBy(p)) == Orphans(s) - OldOrphans(s, now);
    }
  }

  /** Least recently used first: what the overall pass evicts precedes every
      survivor, and an evicted executable precedes every surviving one. */
  lemma {:induction false} EvictsInOrder(s: Snapshot, o: GcOptions, now: nat, p: Plan, i: nat, j: nat, u: nat, v: nat)
    requires Planned(s, o, now, p, i, j)
    requires u in EvictedBy(p) && v < |s.units| && v !in EvictedBy(p)
    requires IsExecutable(s, u) ==> IsExecutable(s, v)
    ensures Before(s, o, u, v)
  {
    var order := EvictionOrder(s, o);
    var x := PlaceOf(s, o, u);
    var y := PlaceOf(s, o, v);
    ReachedIffBefore(s, o, order, j, x);
    ReachedIffBefore(s, o, order, j, y);
    ReachedIffBefore(s, o, order, i, x);
    ReachedIffBefore(s, o, order, i, y);
  }

  lemma {:induction false} StepBack(s: Snapshot, o: GcOptions, i: nat, j: nat)
    requires i <= |EvictionOrder(s, o)| && 0 < j <= |EvictionOrder(s, o)|
    requires EvictionOrder(s, o)[j - 1] !in FirstExecutables(s, EvictionOrder(s, o), i)
    ensures EvictedAt(s, EvictionOrder(s, o), i, j) - {EvictionOrder(s, o)[j - 1]}
      == EvictedAt(s, EvictionOrder(s, o), i, j - 1)
  {
    var order := EvictionOrder(s, o);
    ReachedIffBefore(s, o, order, j - 1, j - 1);
    assert order[..j] == order[..j - 1] + [order[j - 1]];
  }

  /** Nothing goes without need: had the plan kept the last unit of the overall
      pass, the store would not fit, or that unit is obsolete or went to make
      room for executables. */
  lemma {:induction false} EvictsNoMoreThanNeeded(s: Snapshot, o: GcOptions, now: nat, p: Plan, i: nat, j: nat)
    requires Planned(s, o, now, p, i, j) && j > 0
    ensures var last := EvictionOrder(s, o)[j - 1];
      Obsolete(o, s.units[last])
      || last in FirstExecutables(s, EvictionOrder(s, o), i)
      || BytesAfter(s, now, EvictedBy(p) - {last}) > o.maxBytes
  {
    var order := EvictionOrder(s, o);
    assert !MayStop(s, o, now, order, i, j - 1);
    if order[j - 1] !in FirstExecutables(s, order, i) {
      StepBack(s, o, i, j);
    }
  }

  // ----- Accounting --------------------------------------------------------

  ghost function FreedBytes(s: Snapshot, freed: seq<(nat, nat)>): nat
    requires forall k :: 0 <= k < |freed| ==> freed[k].0 < |s.blobs|
  {
    if freed == [] then 0
    else FreedBytes(s, freed[..|freed| - 1]) + s.blobs[freed[|freed| - 1].0].bytes
  }

  ghost function ListedBytes(s: Snapshot, blobs: seq<nat>): nat
    requires forall k :: 0 <= k < |blobs| ==> blobs[k] < |s.blobs|
  {
    if blobs == [] then 0
    else ListedBytes(s, blobs[..|blobs| - 1]) + s.blobs[blobs[|blobs| - 1]].bytes
  }

  lemma {:induction false} ListedBytesAreBytes(s: Snapshot, blobs: seq<nat>)
    requires Distinct(blobs) && forall k :: 0 <= k < |blobs| ==> blobs[k] < |s.blobs|
    ensures ListedBytes(s, blobs) == Bytes(s, Elements(blobs))
  {
    if blobs == [] {
      BytesBelowNone(s.blobs, |s.blobs|);
      assert Elements(blobs) == {};
    } else {
      var rest, last := blobs[..|blobs| - 1], blobs[|blobs| - 1];
      ListedBytesAreBytes(s, rest);
      assert Elements(blobs) == Elements(rest) + {last};
      assert last !in rest;
      BytesBelowAdd(s.blobs, Elements(rest), last, |s.blobs|);
    }
  }

  lemma {:induction false} FreedBytesAreListed(s: Snapshot, freed: seq<(nat, nat)>, blobs: seq<nat>)
    requires forall k :: 0 <= k < |freed| ==> freed[k].0 < |s.blobs|
    requires |blobs| == |freed| && forall k :: 0 <= k < |freed| ==> blobs[k] == freed[k].0
    ensures FreedBytes(s, freed) == ListedBytes(s, blobs)
  {
    if freed != [] {
      FreedBytesAreListed(s, freed[..|freed| - 1], blobs[..|blobs| - 1]);
    }
  }

  lemma {:induction false} FreedBytesAreBytes(s: Snapshot, dead: set<nat>, evicted: set<nat>, freed: seq<(nat, nat)>)
    requires WellFormed(s) && Frees(s, dead, evicted, freed)
    ensures forall k :: 0 <= k < |freed| ==> freed[k].0 < |s.blobs|
    ensures FreedBytes(s, freed) == Bytes(s, dead)
  {
    forall k | 0 <= k < |freed|
      ensures freed[k].0 < |s.blobs|
    {
      assert UnitOk(s, freed[k].1);
    }
    var blobs: seq<nat> := seq(|freed|, k requires 0 <= k < |freed| => freed[k].0);
    FreedBytesAreListed(s, freed, blobs);
    assert Elements(blobs) == FreedBlobs(freed) by {
      forall b | b in FreedBlobs(freed)
        ensures b in Elements(blobs)
      {
        var k :| 0 <= k < |freed| && freed[k].0 == b;
        assert blobs[k] == b;
      }
    }
    ListedBytesAreBytes(s, blobs);
  }

  /** The report adds up: what was there is what stays, plus what evictions
      free, plus what nobody referred to. No subtraction saturated. */
  lemma {:induction false} BytesAreConserved(s: Snapshot, o: GcOptions, now: nat, p: Plan, i: nat, j: nat)
    requires Planned(s, o, now, p, i, j)
    ensures forall k :: 0 <= k < |p.freed| ==> p.freed[k].0 < |s.blobs|
    ensures forall k :: 0 <= k < |p.unreferenced| ==> p.unreferenced[k] < |s.blobs|
    ensures s.totalBytes == p.bytesAfter + FreedBytes(s, p.freed) + ListedBytes(s, p.unreferenced)
  {
    FreedBytesAreBytes(s, Dead(s, EvictedBy(p)), EvictedBy(p), p.freed);
    forall k | 0 <= k < |p.unreferenced|
      ensures p.unreferenced[k] < |s.blobs|
    {
      assert p.unreferenced[k] in Elements(p.unreferenced);
    }
    ListedBytesAreBytes(s, p.unreferenced);
    AllBytes(s);
    BytesSplit(s, Referenced(s) + Orphans(s), OldOrphans(s, now));
    BytesSplit(s, Kept(s, now), Dead(s, EvictedBy(p)));
  }

  /** Exactly the blobs that lose their last referrer are freed, each once. */
  lemma {:induction false} FreesExactlyTheDead(s: Snapshot, o: GcOptions, now: nat, p: Plan, i: nat, j: nat, b: nat)
    requires Planned(s, o, now, p, i, j) && b < |s.blobs|
    ensures (exists k :: 0 <= k < |p.freed| && p.freed[k].0 == b)
      <==> (|s.referrers[b]| > 0 && forall u :: u in s.referrers[b] ==> u < |p.evicted| && p.evicted[u])
    ensures forall k, l :: 0 <= k < |p.freed| && 0 <= l < |p.freed| && p.freed[k].0 == p.freed[l].0 ==> k == l
    ensures forall k :: 0 <= k < |p.freed| && p.freed[k].0 == b ==>
      p.freed[k].1 in s.referrers[b] && p.freed[k].1 < |p.evicted| && p.evicted[p.freed[k].1]
  {
    assert BlobOk(s, b);
    assert b in Dead(s, EvictedBy(p)) <==> b in FreedBlobs(p.freed);
    forall k | 0 <= k < |p.freed| && p.freed[k].0 == b
      ensures p.freed[k].1 in s.referrers[b]
    {
      assert UnitOk(s, p.freed[k].1);
    }
    forall k, l | 0 <= k < |p.freed| && 0 <= l < |p.freed| && p.freed[k].0 == p.freed[l].0
      ensures k == l
    {
      assert k < l || l < k || k == l;
    }
  }
}
