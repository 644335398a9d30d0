/**
 The planner's plans are the plans a collection may apply: a blob it lets go
 of is named by no candidate the snapshot read, unless that candidate goes too.
 */
module PlanToCollection {
  import P = Planner
  import C = Collection

  /** The snapshot holds the walked blobs and has a unit for every candidate
      read, naming every walked blob the candidate refers to. */
  ghost predicate Covers(s: P.Snapshot, walked: set<C.Digest>, units: C.Index, place: seq<(C.Key, int)>) {
    && walked == (set b | 0 <= b < |s.blobs| :: C.Digest(s.blobs[b].digest))
    && (forall k, i :: k in units && 0 <= i < |units[k]| ==> HasUnit(s, units, place, k, i))
  }

  ghost predicate HasUnit(s: P.Snapshot, units: C.Index, place: seq<(C.Key, int)>, k: C.Key, i: nat) {
    exists u: nat :: UnitFor(s, units, place, u, k, i)
  }

  ghost predicate UnitFor(s: P.Snapshot, units: C.Index, place: seq<(C.Key, int)>, u: nat, k: C.Key, i: nat) {
    && u < |place| && u < |s.units| && place[u] == (k, i)
    && k in units && i < |units[k]|
    && forall b :: 0 <= b < |s.blobs| && C.Digest(s.blobs[b].digest) in units[k][i].refs ==> b in s.units[u].blobs
  }

  ghost function EvictedPlaces(p: P.Plan, place: seq<(C.Key, int)>): set<(C.Key, int)> {
    set u | 0 <= u < |place| && u in P.EvictedBy(p) :: place[u]
  }

  ghost function DeadDigests(s: P.Snapshot, p: P.Plan): set<C.Digest> {
    set b | 0 <= b < |s.blobs| && (b in P.FreedBlobs(p.freed) || b in p.unreferenced) :: C.Digest(s.blobs[b].digest)
  }

  lemma {:induction false} PlansMayBeApplied(
      s: P.Snapshot, o: P.GcOptions, now: nat, p: P.Plan, i: nat, j: nat,
      walked: set<C.Digest>, units: C.Index, place: seq<(C.Key, int)>)
    requires P.Planned(s, o, now, p, i, j) && Covers(s, walked, units, place)
    ensures C.PlanOk(walked, units, EvictedPlaces(p, place), DeadDigests(s, p))
  {
    forall k, n, d | k in units && 0 <= n < |units[k]| && d in DeadDigests(s, p) && d in units[k][n].refs
      ensures (k, n) in EvictedPlaces(p, place)
    {
      var b := DeadBlob(s, p, d);
      assert HasUnit(s, units, place, k, n);
      var u: nat :| UnitFor(s, units, place, u, k, n);
      ReferrersGoToo(s, o, now, p, i, j, u, b);
      assert place[u] == (k, n);
    }
  }

  lemma {:induction false} DeadBlob(s: P.Snapshot, p: P.Plan, d: C.Digest) returns (b: nat)
    requires d in DeadDigests(s, p)
    ensures b < |s.blobs| && C.Digest(s.blobs[b].digest) == d
    ensures b in P.FreedBlobs(p.freed) || b in p.unreferenced
  {
    b :| 0 <= b < |s.blobs| && (b in P.FreedBlobs(p.freed) || b in p.unreferenced)
      && C.Digest(s.blobs[b].digest) == d;
  }

  /** Whoever refers to a blob the plan deletes is evicted by the plan. */
  lemma {:induction false} ReferrersGoToo(s: P.Snapshot, o: P.GcOptions, now: nat, p: P.Plan, i: nat, j: nat, u: nat, b: nat)
    requires P.Planned(s, o, now, p, i, j)
    requires u < |s.units| && b < |s.blobs| && b in s.units[u].blobs
    requires b in P.FreedBlobs(p.freed) || b in p.unreferenced
    ensures u in P.EvictedBy(p)
  {
    assert P.UnitOk(s, u);
    assert b in p.unreferenced ==> b in P.Elements(p.unreferenced);
    assert b !in P.Orphans(s);
  }

  // ----- Reading the snapshot ----------------------------------------------

  /** One candidate of a record file, with what the planner keeps of it. */
  datatype Read = Read(candidate: C.Candidate, unit: P.Unit, digests: seq<string>)

  datatype RecordFile = RecordFile(key: C.Key, entries: seq<Read>)

  /** The digests listed are the ones the candidate refers to. */
  ghost predicate ReadOk(r: Read) {
    forall d :: d in r.digests <==> C.Digest(d) in r.candidate.refs
  }

  ghost predicate FilesOk(files: seq<RecordFile>) {
    && (forall i, j :: 0 <= i < j < |files| ==> files[i].key != files[j].key)
    && (forall i, n :: 0 <= i < |files| && 0 <= n < |files[i].entries| ==> ReadOk(files[i].entries[n]))
  }

  function Candidates(entries: seq<Read>): seq<C.Candidate> {
    seq(|entries|, n requires 0 <= n < |entries| => entries[n].candidate)
  }

  /** The index as the record files were read. */
  ghost function UnitsOf(files: seq<RecordFile>): C.Index {
    if |files| == 0 then map[] else
      var last := files[|files| - 1];
      UnitsOf(files[..|files| - 1])[last.key := Candidates(last.entries)]
  }

  ghost function Walked(blobs: seq<P.Blob>): set<C.Digest> {
    set b | 0 <= b < |blobs| :: C.Digest(blobs[b].digest)
  }

  /** Every walked blob by its digest. */
  ghost predicate Named(blobs: seq<P.Blob>, byDigest: map<string, nat>) {
    && (forall d :: d in byDigest ==> byDigest[d] < |blobs|)
    && forall b :: 0 <= b < |blobs| ==> blobs[b].digest in byDigest && byDigest[blobs[b].digest] == b
  }

  method WalkBlobs(blobs: seq<P.Blob>) returns (s: P.Snapshot, byDigest: map<string, nat>)
    requires forall i, j :: 0 <= i < j < |blobs| ==> blobs[i].digest != blobs[j].digest
    ensures P.WellFormed(s) && s.units == [] && s.blobs == blobs && Named(blobs, byDigest)
  {
    byDigest := map[];
    var total := 0;
    var referrers: seq<seq<nat>> := [];
    for i := 0 to |blobs|
      invariant |referrers| == i && total == P.SumBytes(blobs[..i])
      invariant forall b :: 0 <= b < i ==> referrers[b] == []
      invariant forall d :: d in byDigest ==> byDigest[d] < i
      invariant forall b :: 0 <= b < i ==> blobs[b].digest in byDigest && byDigest[blobs[b].digest] == b
    {
      assert blobs[..i + 1][..i] == blobs[..i];
      total := total + blobs[i].bytes;
      byDigest := byDigest[blobs[i].digest := i];
      referrers := referrers + [[]];
    }
    assert blobs[..|blobs|] == blobs;
    s := P.Snapshot([], blobs, referrers, total);
  }

  /** The units so far are those of the candidates read so far. */
  ghost predicate ReadSoFar(s: P.Snapshot, blobs: seq<P.Blob>, units: C.Index, place: seq<(C.Key, int)>) {
    P.WellFormed(s) && s.blobs == blobs && |place| == |s.units| && Covers(s, Walked(blobs), units, place)
  }

  /** What adding a unit for a candidate leaves behind. */
  ghost predicate Extends(s: P.Snapshot, r: P.Snapshot, byDigest: map<string, nat>, digests: seq<string>) {
    && P.WellFormed(r) && r.blobs == s.blobs
    && |r.units| == |s.units| + 1 && r.units[..|s.units|] == s.units
    && forall d :: d in digests && d in byDigest ==> byDigest[d] in r.units[|s.units|].blobs
  }

  lemma {:induction false} OneMoreCandidate(
      s: P.Snapshot, r: P.Snapshot, blobs: seq<P.Blob>, byDigest: map<string, nat>, read: Read,
      units: C.Index, place: seq<(C.Key, int)>, k: C.Key)
    requires ReadSoFar(s, blobs, units, place) && Named(blobs, byDigest) && ReadOk(read) && k in units
    requires Extends(s, r, byDigest, read.digests)
    ensures ReadSoFar(r, blobs, units[k := units[k] + [read.candidate]], place + [(k, |units[k]|)])
  {
    hide P.WellFormed;
    var more, longer := units[k := units[k] + [read.candidate]], place + [(k, |units[k]|)];
    forall key, i | key in more && 0 <= i < |more[key]|
      ensures HasUnit(r, more, longer, key, i)
    {
      if key == k && i == |units[k]| {
        NewUnitFor(s, r, blobs, byDigest, read, more, longer, k);
      } else {
        assert HasUnit(s, units, place, key, i);
        var u: nat :| UnitFor(s, units, place, u, key, i);
        assert r.units[u] == r.units[..|s.units|][u];
        assert more[key][i] == units[key][i] && longer[u] == place[u];
        assert UnitFor(r, more, longer, u, key, i);
      }
    }
  }

  lemma {:induction false} NewUnitFor(
      s: P.Snapshot, r: P.Snapshot, blobs: seq<P.Blob>, byDigest: map<string, nat>, read: Read,
      more: C.Index, longer: seq<(C.Key, int)>, k: C.Key)
    requires r.blobs == blobs && Named(blobs, byDigest) && ReadOk(read) && Extends(s, r, byDigest, read.digests)
    requires k in more && |more[k]| > 0 && more[k][|more[k]| - 1] == read.candidate
    requires |longer| == |r.units| && longer[|s.units|] == (k, |more[k]| - 1)
    ensures HasUnit(r, more, longer, k, |more[k]| - 1)
  {
    var u, i := |s.units|, |more[k]| - 1;
    forall b | 0 <= b < |r.blobs| && C.Digest(r.blobs[b].digest) in more[k][i].refs
      ensures b in r.units[u].blobs
    {
      assert r.blobs[b].digest in read.digests;
      assert byDigest[r.blobs[b].digest] == b;
    }
    assert UnitFor(r, more, longer, u, k, i);
  }

  lemma {:induction false} EmptyFile(s: P.Snapshot, blobs: seq<P.Blob>, units: C.Index, place: seq<(C.Key, int)>, k: C.Key)
    requires ReadSoFar(s, blobs, units, place) && k !in units
    ensures ReadSoFar(s, blobs, units[k := []], place)
  {
    hide P.WellFormed;
    var more := units[k := []];
    forall key, i | key in more && 0 <= i < |more[key]|
      ensures HasUnit(s, more, place, key, i)
    {
      assert HasUnit(s, units, place, key, i);
      var u: nat :| UnitFor(s, units, place, u, key, i);
      assert UnitFor(s, more, place, u, key, i);
    }
  }

  /** Adds the candidates of one record file. */
  method ReadFile(s: P.Snapshot, byDigest: map<string, nat>, file: RecordFile,
                  ghost blobs: seq<P.Blob>, ghost units: C.Index, ghost place: seq<(C.Key, int)>)
    returns (r: P.Snapshot, ghost longer: seq<(C.Key, int)>)
    requires ReadSoFar(s, blobs, units, place) && Named(blobs, byDigest) && file.key !in units
    requires forall n :: 0 <= n < |file.entries| ==> ReadOk(file.entries[n])
    ensures P.WellFormed(r) && r.blobs == s.blobs && |r.units| == |s.units| + |file.entries|
    ensures ReadSoFar(r, blobs, units[file.key := Candidates(file.entries)], longer)
  {
    hide P.WellFormed, Covers, ReadOk;
    r, longer := s, place;
    EmptyFile(s, blobs, units, place, file.key);
    ghost var more := units[file.key := []];
    assert Candidates(file.entries[..0]) == [];
    for n := 0 to |file.entries|
      invariant ReadSoFar(r, blobs, more, longer)
      invariant |r.units| == |s.units| + n
      invariant more == units[file.key := Candidates(file.entries[..n])]
    {
      var read := file.entries[n];
      ghost var before := r;
      r := P.AddUnit(r, byDigest, read.unit, read.digests);
      OneMoreCandidate(before, r, blobs, byDigest, read, more, longer, file.key);
      longer := longer + [(file.key, |more[file.key]|)];
      more := more[file.key := more[file.key] + [read.candidate]];
      assert Candidates(file.entries[..n + 1]) == Candidates(file.entries[..n]) + [read.candidate];
    }
    assert file.entries[..|file.entries|] == file.entries;
  }

  /** Reads every record file: the snapshot then covers the index as it was read. */
  method ReadSnapshot(blobs: seq<P.Blob>, files: seq<RecordFile>) returns (s: P.Snapshot, ghost place: seq<(C.Key, int)>)
    requires forall i, j :: 0 <= i < j < |blobs| ==> blobs[i].digest != blobs[j].digest
    requires FilesOk(files)
    ensures P.WellFormed(s) && s.blobs == blobs
    ensures Covers(s, Walked(blobs), UnitsOf(files), place)
  {
    hide P.WellFormed, Covers, ReadOk;
    var byDigest;
    s, byDigest := WalkBlobs(blobs);
    place := [];
    NothingRead(s);
    for i := 0 to |files|
      invariant ReadSoFar(s, blobs, UnitsOf(files[..i]), place)
    {
      assert files[..i + 1][..i] == files[..i];
      KeysRead(files, i);
      s, place := ReadFile(s, byDigest, files[i], blobs, UnitsOf(files[..i]), place);
    }
    assert files[..|files|] == files;
  }

  lemma {:induction false} NothingRead(s: P.Snapshot)
    requires P.WellFormed(s) && s.units == []
    ensures ReadSoFar(s, s.blobs, map[], [])
  {
    hide P.WellFormed;
  }

  lemma {:induction false} KeysRead(files: seq<RecordFile>, n: nat)
    requires n <= |files|
    ensures forall k :: k in UnitsOf(files[..n]) <==> exists i :: 0 <= i < n && files[i].key == k
  {
    if n > 0 {
      KeysRead(files, n - 1);
      assert files[..n][..n - 1] == files[..n - 1];
    }
  }

  /** Reading and planning give a plan the collection may apply to what it read. */
  method ReadAndPlan(blobs: seq<P.Blob>, files: seq<RecordFile>, o: P.GcOptions, now: nat)
    returns (s: P.Snapshot, p: P.Plan, ghost place: seq<(C.Key, int)>)
    requires forall i, j :: 0 <= i < j < |blobs| ==> blobs[i].digest != blobs[j].digest
    requires FilesOk(files)
    ensures s.blobs == blobs && exists i: nat, j: nat :: P.Planned(s, o, now, p, i, j)
    ensures C.PlanOk(Walked(blobs), UnitsOf(files), EvictedPlaces(p, place), DeadDigests(s, p))
  {
    hide P.WellFormed, P.Planned, Covers, ReadOk, C.PlanOk, EvictedPlaces, DeadDigests;
    s, place := ReadSnapshot(blobs, files);
    p := P.NewPlan(s, o, now);
    ghost var i: nat, j: nat :| P.Planned(s, o, now, p, i, j);
    PlansMayBeApplied(s, o, now, p, i, j, Walked(blobs), UnitsOf(files), place);
  }
}
