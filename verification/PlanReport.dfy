/**
 The report's groupings: per-label totals for one way of labelling records,
 and the fact that they partition the records and the freed bytes.
 */
module PlanReport {
  import opened Results
  import opened Planner
  import opened PlannerTheorems

  datatype Bucket = Bucket(records: nat, evictedRecords: nat, exclusiveBytes: nat, evictedBytes: nat)

  const EMPTY := Bucket(0, 0, 0, 0)

  /** Records among the first `n` that carry the label. */
  ghost function Records(labels: seq<string>, l: string, n: nat): nat
    requires n <= |labels|
  {
    if n == 0 then 0 else Records(labels, l, n - 1) + if labels[n - 1] == l then 1 else 0
  }

  ghost function EvictedRecords(labels: seq<string>, evicted: seq<bool>, l: string, n: nat): nat
    requires n <= |labels| == |evicted|
  {
    if n == 0 then 0
    else EvictedRecords(labels, evicted, l, n - 1) + if labels[n - 1] == l && evicted[n - 1] then 1 else 0
  }

  /** Blobs whose every referrer carries the label: what removing it would free. */
  ghost function ExclusiveTo(s: Snapshot, labels: seq<string>, l: string): set<nat>
    requires |s.referrers| == |s.blobs|
  {
    Dead(s, set u | 0 <= u < |labels| && labels[u] == l)
  }

  /** Bytes of the first `n` freed blobs, attributed to the label of the record that freed them. */
  ghost function AttributedBytes(s: Snapshot, labels: seq<string>, freed: seq<(nat, nat)>, l: string, n: nat): nat
    requires n <= |freed|
    requires forall k :: 0 <= k < |freed| ==> freed[k].0 < |s.blobs| && freed[k].1 < |labels|
  {
    if n == 0 then 0
    else AttributedBytes(s, labels, freed, l, n - 1)
         + if labels[freed[n - 1].1] == l then s.blobs[freed[n - 1].0].bytes else 0
  }

  method CountRecords(labels: seq<string>, evicted: seq<bool>) returns (buckets: map<string, Bucket>)
    requires |labels| == |evicted|
    ensures forall l :: l in buckets <==> l in labels
    ensures forall l :: l in buckets ==> buckets[l] == Bucket(
      Records(labels, l, |labels|), EvictedRecords(labels, evicted, l, |labels|), 0, 0)
  {
    buckets := map[];
    for i := 0 to |labels|
      invariant forall k :: 0 <= k < i ==> labels[k] in buckets
      invariant forall l :: l in buckets ==> l in labels
      invariant forall l :: l in buckets ==>
        buckets[l] == Bucket(Records(labels, l, i), EvictedRecords(labels, evicted, l, i), 0, 0)
      invariant forall l :: l !in buckets ==> Records(labels, l, i) == EvictedRecords(labels, evicted, l, i) == 0
    {
      var l := labels[i];
      var entry := if l in buckets then buckets[l] else EMPTY;
      entry := entry.(records := entry.records + 1);
      if evicted[i] {
        entry := entry.(evictedRecords := entry.evictedRecords + 1);
      }
      buckets := buckets[l := entry];
    }
  }

  method WeighExclusive(s: Snapshot, labels: seq<string>, counted: map<string, Bucket>)
    returns (buckets: map<string, Bucket>)
    requires WellFormed(s) && |labels| == |s.units|
    requires forall l :: l in labels ==> l in counted
    requires forall l :: l in counted ==> counted[l].exclusiveBytes == 0
    ensures buckets.Keys == counted.Keys
    ensures forall l :: l in counted ==>
      buckets[l] == counted[l].(exclusiveBytes := Bytes(s, ExclusiveTo(s, labels, l)))
  {
    buckets := counted;
    for b := 0 to |s.blobs|
      invariant buckets.Keys == counted.Keys
      invariant forall l :: l in buckets ==>
        buckets[l] == counted[l].(exclusiveBytes := BytesBelow(s.blobs, ExclusiveTo(s, labels, l), b))
    {
      if |s.referrers[b]| > 0 {
        ExclusiveToOne(s, labels, b);
        var l := labels[s.referrers[b][0]];
        if forall u :: u in s.referrers[b] ==> labels[u] == l {
          buckets := buckets[l := buckets[l].(exclusiveBytes := buckets[l].exclusiveBytes + s.blobs[b].bytes)];
        }
      }
    }
  }

  method AttributeFreed(s: Snapshot, labels: seq<string>, freed: seq<(nat, nat)>, weighed: map<string, Bucket>)
    returns (buckets: map<string, Bucket>)
    requires forall k :: 0 <= k < |freed| ==> freed[k].0 < |s.blobs| && freed[k].1 < |labels|
    requires forall l :: l in labels ==> l in weighed
    requires forall l :: l in weighed ==> weighed[l].evictedBytes == 0
    ensures buckets.Keys == weighed.Keys
    ensures forall l :: l in weighed ==>
      buckets[l] == weighed[l].(evictedBytes := AttributedBytes(s, labels, freed, l, |freed|))
  {
    buckets := weighed;
    for k := 0 to |freed|
      invariant buckets.Keys == weighed.Keys
      invariant forall l :: l in buckets ==>
        buckets[l] == weighed[l].(evictedBytes := AttributedBytes(s, labels, freed, l, k))
    {
      var l := labels[freed[k].1];
      buckets := buckets[l := buckets[l].(evictedBytes := buckets[l].evictedBytes + s.blobs[freed[k].0].bytes)];
    }
  }

  method Buckets(s: Snapshot, p: Plan, labels: seq<string>) returns (buckets: map<string, Bucket>)
    requires WellFormed(s) && |labels| == |s.units| == |p.evicted|
    requires forall k :: 0 <= k < |p.freed| ==> p.freed[k].0 < |s.blobs| && p.freed[k].1 < |s.units|
    ensures forall l :: l in buckets <==> l in labels
    ensures forall l :: l in buckets ==> buckets[l] == Bucket(
      Records(labels, l, |labels|),
      EvictedRecords(labels, p.evicted, l, |labels|),
      Bytes(s, ExclusiveTo(s, labels, l)),
      AttributedBytes(s, labels, p.freed, l, |p.freed|))
  {
    buckets := CountRecords(labels, p.evicted);
    buckets := WeighExclusive(s, labels, buckets);
    buckets := AttributeFreed(s, labels, p.freed, buckets);
  }

  /** A blob is exclusive to a label only if that is its first referrer's label. */
  lemma {:induction false} ExclusiveToOne(s: Snapshot, labels: seq<string>, b: nat)
    requires WellFormed(s) && |labels| == |s.units| && b < |s.blobs| && |s.referrers[b]| > 0
    ensures s.referrers[b][0] < |labels| && forall u :: u in s.referrers[b] ==> u < |labels|
    ensures forall l :: b in ExclusiveTo(s, labels, l) <==>
      l == labels[s.referrers[b][0]] && forall u :: u in s.referrers[b] ==> labels[u] == l
  {
    assert BlobOk(s, b);
    assert s.referrers[b][0] in s.referrers[b];
  }

  // ----- The buckets partition ---------------------------------------------

  /** Sum of `f` over a set of labels. */
  ghost function Sum(keys: set<string>, f: string -> nat): nat {
    if keys == {} then 0 else
      var l :| l in keys;
      f(l) + Sum(keys - {l}, f)
  }

  lemma {:induction false} SumSplit(keys: set<string>, f: string -> nat, l: string)
    requires l in keys
    ensures Sum(keys, f) == f(l) + Sum(keys - {l}, f)
  {
    var k :| k in keys && Sum(keys, f) == f(k) + Sum(keys - {k}, f);
    if k != l {
      SumSplit(keys - {k}, f, l);
      SumSplit(keys - {l}, f, k);
      assert keys - {k} - {l} == keys - {l} - {k};
    }
  }

  lemma {:induction false} SumSame(keys: set<string>, f: string -> nat, g: string -> nat)
    requires forall l :: l in keys ==> f(l) == g(l)
    ensures Sum(keys, f) == Sum(keys, g)
  {
    if keys != {} {
      var k :| k in keys;
      SumSplit(keys, f, k);
      SumSplit(keys, g, k);
      SumSame(keys - {k}, f, g);
    }
  }

  /** Raising one label's share raises the sum by as much. */
  lemma {:induction false} SumRaise(keys: set<string>, f: string -> nat, g: string -> nat, l: string, d: nat)
    requires l in keys && g(l) == f(l) + d
    requires forall k :: k in keys && k != l ==> g(k) == f(k)
    ensures Sum(keys, g) == Sum(keys, f) + d
  {
    SumSplit(keys, f, l);
    SumSplit(keys, g, l);
    SumSame(keys - {l}, f, g);
  }

  lemma {:induction false} SumZero(keys: set<string>, f: string -> nat)
    requires forall l :: l in keys ==> f(l) == 0
    ensures Sum(keys, f) == 0
  {
    if keys != {} {
      var k :| k in keys;
      SumSplit(keys, f, k);
      SumZero(keys - {k}, f);
    }
  }

  /** Every record is counted under exactly one label. */
  lemma {:induction false} RecordsPartition(labels: seq<string>, keys: set<string>, n: nat)
    requires n <= |labels| && forall k :: 0 <= k < n ==> labels[k] in keys
    ensures Sum(keys, l => Records(labels, l, n)) == n
  {
    if n == 0 {
      SumZero(keys, l => Records(labels, l, 0));
    } else {
      RecordsPartition(labels, keys, n - 1);
      SumRaise(keys, l => Records(labels, l, n - 1), l => Records(labels, l, n), labels[n - 1], 1);
    }
  }

  lemma {:induction false} EvictedOneMore(p: Plan, n: nat)
    requires 0 < n <= |p.evicted|
    ensures |set u | u in EvictedBy(p) && u < n| == |set u | u in EvictedBy(p) && u < n - 1| + if p.evicted[n - 1] then 1 else 0
  {
    assert (set u | u in EvictedBy(p) && u < n)
      == (set u | u in EvictedBy(p) && u < n - 1) + if p.evicted[n - 1] then {n - 1} else {};
  }

  /** Every evicted record is counted under exactly one label. */
  lemma {:induction false} EvictedRecordsPartition(labels: seq<string>, p: Plan, keys: set<string>, n: nat)
    requires n <= |labels| == |p.evicted| && forall k :: 0 <= k < n ==> labels[k] in keys
    ensures Sum(keys, l => EvictedRecords(labels, p.evicted, l, n)) == |set u | u in EvictedBy(p) && u < n|
  {
    hide EvictedBy, Sum;
    if n == 0 {
      SumZero(keys, l => EvictedRecords(labels, p.evicted, l, 0));
      assert (set u | u in EvictedBy(p) && u < 0) == {};
    } else {
      EvictedRecordsPartition(labels, p, keys, n - 1);
      EvictedOneMore(p, n);
      SumRaise(
        keys, l => EvictedRecords(labels, p.evicted, l, n - 1), l => EvictedRecords(labels, p.evicted, l, n),
        labels[n - 1], if p.evicted[n - 1] then 1 else 0);
    }
  }

  /** Every freed byte is attributed to exactly one label. */
  lemma {:induction false} FreedBytesPartition(
      s: Snapshot, labels: seq<string>, freed: seq<(nat, nat)>, keys: set<string>, n: nat)
    requires n <= |freed|
    requires forall k :: 0 <= k < |freed| ==> freed[k].0 < |s.blobs| && freed[k].1 < |labels|
    requires forall k :: 0 <= k < |labels| ==> labels[k] in keys
    ensures Sum(keys, l => AttributedBytes(s, labels, freed, l, n)) == FreedBytes(s, freed[..n])
  {
    if n == 0 {
      SumZero(keys, l => AttributedBytes(s, labels, freed, l, 0));
    } else {
      FreedBytesPartition(s, labels, freed, keys, n - 1);
      SumRaise(
        keys, l => AttributedBytes(s, labels, freed, l, n - 1), l => AttributedBytes(s, labels, freed, l, n),
        labels[freed[n - 1].1], s.blobs[freed[n - 1].0].bytes);
      assert freed[..n][..n - 1] == freed[..n - 1];
    }
  }
}
