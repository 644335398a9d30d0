/** The read-only half of a collection: which records to evict, least recently
    used first, until each budget holds, and which blobs that frees. */
module Planner {
  import opened Results

  const GRACE_MS: nat := 60 * 60 * 1000

  datatype Kind = Library | Executable | Linked | BuildScript | Declared | Archive

  /** One evictable unit: a compiler candidate, or a declared or archive record. */
  datatype Unit = Unit(
    candidate: Option<(string, nat)>,
    protocol: Option<nat>,
    crateName: string,
    kind: Kind,
    pinned: bool,
    lastUsed: nat,
    blobs: seq<nat>)

  datatype Blob = Blob(digest: string, bytes: nat, modified: nat)

  datatype Snapshot = Snapshot(units: seq<Unit>, blobs: seq<Blob>, referrers: seq<seq<nat>>, totalBytes: nat)

  datatype GcOptions = GcOptions(maxBytes: nat, minProtocol: Option<nat>, maxExecutableBytes: Option<nat>)

  datatype Plan = Plan(
    evicted: seq<bool>,
    freed: seq<(nat, nat)>,
    unreferenced: seq<nat>,
    protectedUnreferenced: nat,
    bytesAfter: nat)

  function SaturatingSub(a: nat, b: nat): (r: nat)
    ensures b <= a ==> r == a - b
    ensures a <= b ==> r == 0
  {
    if b <= a then a - b else 0
  }

  ghost predicate Distinct<T>(s: seq<T>) {
    forall i, j :: 0 <= i < j < |s| ==> s[i] != s[j]
  }

  function SumBytes(blobs: seq<Blob>): nat {
    if blobs == [] then 0 else SumBytes(blobs[..|blobs| - 1]) + blobs[|blobs| - 1].bytes
  }

  ghost predicate UnitOk(s: Snapshot, u: nat)
    requires u < |s.units| && |s.referrers| == |s.blobs|
  {
    && Distinct(s.units[u].blobs)
    && forall b :: b in s.units[u].blobs ==> b < |s.blobs| && u in s.referrers[b]
  }

  ghost predicate BlobOk(s: Snapshot, b: nat)
    requires b < |s.blobs| == |s.referrers|
  {
    && Distinct(s.referrers[b])
    && forall u :: u in s.referrers[b] ==> u < |s.units| && b in s.units[u].blobs
  }

  /** What `Snapshot::read` guarantees: the referrer lists are the transpose of
      the units' blob lists, without repetitions on either side. */
  ghost predicate WellFormed(s: Snapshot) {
    && |s.referrers| == |s.blobs|
    && s.totalBytes == SumBytes(s.blobs)
    && (forall u :: 0 <= u < |s.units| ==> UnitOk(s, u))
    && (forall b :: 0 <= b < |s.blobs| ==> BlobOk(s, b))
  }

  // ----- Reading the snapshot ---------------------------------------------

  /** Adds one unit: resolves its digests against the blobs the walk found,
      once each, and records the unit as a referrer of every blob it names. */
  method AddUnit(s: Snapshot, byDigest: map<string, nat>, unit: Unit, digests: seq<string>) returns (r: Snapshot)
    requires WellFormed(s)
    requires forall d :: d in byDigest ==> byDigest[d] < |s.blobs|
    ensures WellFormed(r)
    ensures r.blobs == s.blobs && r.totalBytes == s.totalBytes
    ensures |r.units| == |s.units| + 1 && r.units[..|s.units|] == s.units
    ensures r.units[|s.units|] == unit.(blobs := r.units[|s.units|].blobs)
    ensures forall b :: b in r.units[|s.units|].blobs <==> exists d :: d in digests && d in byDigest && byDigest[d] == b
  {
    hide WellFormed, Resolved, Referring, Distinct;
    var index := |s.units|;
    var blobs: seq<nat> := [];
    var seen: set<nat> := {};
    var referrers: seq<seq<nat>> := s.referrers;
    NothingResolved(s, byDigest, digests);
    for i := 0 to |digests|
      invariant seen == Resolved(byDigest, digests[..i])
      invariant Referring(s, blobs, seen, referrers)
    {
      ResolvedOneMore(byDigest, digests, i);
      if digests[i] in byDigest && byDigest[digests[i]] !in seen {
        var blob := byDigest[digests[i]];
        ReferringOneMore(s, blobs, seen, referrers, blob);
        seen := seen + {blob};
        blobs := blobs + [blob];
        referrers := referrers[blob := referrers[blob] + [index]];
      }
    }
    assert digests[..|digests|] == digests;
    r := Snapshot(s.units + [unit.(blobs := blobs)], s.blobs, referrers, s.totalBytes);
    AddedIsTransposed(s, r, blobs, seen, referrers);
    ResolvedIs(byDigest, digests);
  }

  /** The blobs that some of the digests stand for. */
  ghost function Resolved(byDigest: map<string, nat>, digests: seq<string>): set<nat> {
    set d | d in digests && d in byDigest :: byDigest[d]
  }

  /** The blobs listed so far, each once, and the unit added to their referrers. */
  ghost predicate Referring(s: Snapshot, blobs: seq<nat>, seen: set<nat>, referrers: seq<seq<nat>>) {
    && |referrers| == |s.blobs| == |s.referrers|
    && Distinct(blobs)
    && (forall b :: b in blobs <==> b in seen)
    && (forall b :: b in seen ==> b < |s.blobs|)
    && (forall b :: 0 <= b < |s.blobs| ==> referrers[b] == if b in seen then s.referrers[b] + [|s.units|] else s.referrers[b])
  }

  lemma {:induction false} NothingResolved(s: Snapshot, byDigest: map<string, nat>, digests: seq<string>)
    requires WellFormed(s)
    ensures Resolved(byDigest, digests[..0]) == {} && Referring(s, [], {}, s.referrers)
  {
  }

  lemma {:induction false} ResolvedOneMore(byDigest: map<string, nat>, digests: seq<string>, i: nat)
    requires i < |digests|
    ensures Resolved(byDigest, digests[..i + 1])
      == Resolved(byDigest, digests[..i]) + if digests[i] in byDigest then {byDigest[digests[i]]} else {}
  {
    assert digests[..i + 1] == digests[..i] + [digests[i]];
  }

  lemma {:induction false} ResolvedIs(byDigest: map<string, nat>, digests: seq<string>)
    ensures forall b :: b in Resolved(byDigest, digests) <==> exists d :: d in digests && d in byDigest && byDigest[d] == b
  {
  }

  lemma {:induction false} ReferringOneMore(s: Snapshot, blobs: seq<nat>, seen: set<nat>, referrers: seq<seq<nat>>, b: nat)
    requires Referring(s, blobs, seen, referrers) && b !in seen && b < |s.blobs|
    ensures b < |referrers| && Referring(s, blobs + [b], seen + {b}, referrers[b := referrers[b] + [|s.units|]])
  {
  }

  lemma {:induction false} AddedIsTransposed(s: Snapshot, r: Snapshot, blobs: seq<nat>, seen: set<nat>, referrers: seq<seq<nat>>)
    requires WellFormed(s) && Referring(s, blobs, seen, referrers)
    requires |r.units| == |s.units| + 1 && r.units[..|s.units|] == s.units && r.units[|s.units|].blobs == blobs
    requires r.blobs == s.blobs && r.totalBytes == s.totalBytes && r.referrers == referrers
    ensures WellFormed(r) && forall b :: b in blobs <==> b in seen
  {
    hide WellFormed, Distinct;
    StaysTransposed(s, r, blobs);
  }

  lemma {:induction false} StaysTransposed(s: Snapshot, r: Snapshot, blobs: seq<nat>)
    requires WellFormed(s) && Distinct(blobs)
    requires forall b :: b in blobs ==> b < |s.blobs|
    requires |r.units| == |s.units| + 1 && r.units[..|s.units|] == s.units && r.units[|s.units|].blobs == blobs
    requires r.blobs == s.blobs && r.totalBytes == s.totalBytes && |r.referrers| == |s.blobs|
    requires forall b :: 0 <= b < |s.blobs| ==>
      r.referrers[b] == if b in blobs then s.referrers[b] + [|s.units|] else s.referrers[b]
    ensures WellFormed(r)
  {
    forall u | 0 <= u < |r.units|
      ensures r.units[u].blobs == if u == |s.units| then blobs else s.units[u].blobs
    {
      if u < |s.units| {
        assert r.units[u] == r.units[..|s.units|][u];
      }
    }
    forall u | 0 <= u < |r.units|
      ensures UnitOk(r, u)
    {
      assert u < |s.units| ==> UnitOk(s, u);
    }
    forall b | 0 <= b < |s.blobs|
      ensures BlobOk(r, b)
    {
      assert BlobOk(s, b);
      assert |s.units| !in s.referrers[b];
    }
  }

  // ----- Byte sums over sets of blobs --------------------------------------

  /** Bytes of the blobs below `n` that `d` contains. */
  ghost function BytesBelow(blobs: seq<Blob>, d: set<nat>, n: nat): nat
    requires n <= |blobs|
  {
    if n == 0 then 0 else BytesBelow(blobs, d, n - 1) + if n - 1 in d then blobs[n - 1].bytes else 0
  }

  ghost function Bytes(s: Snapshot, d: set<nat>): nat {
    BytesBelow(s.blobs, d, |s.blobs|)
  }

  lemma {:induction false} BytesBelowAdd(blobs: seq<Blob>, d: set<nat>, b: nat, n: nat)
    requires n <= |blobs| && b !in d && b < |blobs|
    ensures BytesBelow(blobs, d + {b}, n) == BytesBelow(blobs, d, n) + if b < n then blobs[b].bytes else 0
  {
    if n > 0 {
      BytesBelowAdd(blobs, d, b, n - 1);
    }
  }

  lemma {:induction false} BytesBelowSplit(blobs: seq<Blob>, d: set<nat>, e: set<nat>, n: nat)
    requires n <= |blobs| && e <= d
    ensures BytesBelow(blobs, d, n) == BytesBelow(blobs, d - e, n) + BytesBelow(blobs, e, n)
  {
    if n > 0 {
      BytesBelowSplit(blobs, d, e, n - 1);
    }
  }

  lemma {:induction false} BytesBelowAll(blobs: seq<Blob>, d: set<nat>, n: nat)
    requires n <= |blobs| && forall b :: 0 <= b < n ==> b in d
    ensures BytesBelow(blobs, d, n) == SumBytes(blobs[..n])
  {
    if n > 0 {
      BytesBelowAll(blobs, d, n - 1);
      assert blobs[..n][..n - 1] == blobs[..n - 1];
    } else {
      assert blobs[..0] == [];
    }
  }

  /** Removing a subset subtracts its bytes, so byte counts follow set inclusion. */
  lemma {:induction false} BytesSplit(s: Snapshot, d: set<nat>, e: set<nat>)
    requires e <= d
    ensures Bytes(s, d) == Bytes(s, d - e) + Bytes(s, e)
  {
    BytesBelowSplit(s.blobs, d, e, |s.blobs|);
  }

  lemma {:induction false} BytesBelowNone(blobs: seq<Blob>, n: nat)
    requires n <= |blobs|
    ensures BytesBelow(blobs, {}, n) == 0
  {
    if n > 0 {
      BytesBelowNone(blobs, n - 1);
    }
  }

  // ----- What an eviction set means ----------------------------------------

  /** Blobs that something refers to and whose every referrer is evicted. */
  ghost function Dead(s: Snapshot, evicted: set<nat>): set<nat>
    requires |s.referrers| == |s.blobs|
  {
    set b | 0 <= b < |s.blobs| && |s.referrers[b]| > 0 && forall u :: u in s.referrers[b] ==> u in evicted
  }

  ghost function Orphans(s: Snapshot): set<nat>
    requires |s.referrers| == |s.blobs|
  {
    set b | 0 <= b < |s.blobs| && |s.referrers[b]| == 0
  }

  ghost function Referenced(s: Snapshot): set<nat>
    requires |s.referrers| == |s.blobs|
  {
    set b | 0 <= b < |s.blobs| && |s.referrers[b]| > 0
  }

  /** Unreferenced blobs past the upload grace period. */
  ghost function OldOrphans(s: Snapshot, now: nat): set<nat>
    requires |s.referrers| == |s.blobs|
  {
    set b | b in Orphans(s) && !IsYoung(s, now, b)
  }

  ghost predicate IsExecutable(s: Snapshot, u: nat) {
    u < |s.units| && s.units[u].kind == Executable
  }

  /** Blobs only executables refer to. */
  ghost function ExecutableOnly(s: Snapshot): set<nat>
    requires |s.referrers| == |s.blobs|
  {
    set b | 0 <= b < |s.blobs| && |s.referrers[b]| > 0 && forall u :: u in s.referrers[b] ==> IsExecutable(s, u)
  }

  /** What the collection may keep: all but the old orphans. */
  ghost function Kept(s: Snapshot, now: nat): set<nat>
    requires |s.referrers| == |s.blobs|
  {
    Referenced(s) + Orphans(s) - OldOrphans(s, now)
  }

  /** What stays in the blob directory when `evicted` goes. */
  ghost function Surviving(s: Snapshot, now: nat, evicted: set<nat>): set<nat>
    requires |s.referrers| == |s.blobs|
  {
    Kept(s, now) - Dead(s, evicted)
  }

  ghost function BytesAfter(s: Snapshot, now: nat, evicted: set<nat>): nat
    requires |s.referrers| == |s.blobs|
  {
    Bytes(s, Surviving(s, now, evicted))
  }

  ghost function ExecutableBytes(s: Snapshot, evicted: set<nat>): nat
    requires |s.referrers| == |s.blobs|
  {
    Bytes(s, ExecutableOnly(s) - Dead(s, evicted))
  }

  predicate Obsolete(o: GcOptions, unit: Unit) {
    unit.candidate.Some? && o.minProtocol.Some? && unit.protocol.Some? && unit.protocol.value < o.minProtocol.value
  }

  // ----- Eviction order ----------------------------------------------------

  /** Obsolete units first, then least recently used, then snapshot order. */
  predicate Before(s: Snapshot, o: GcOptions, a: nat, b: nat) {
    && a < |s.units| && b < |s.units|
    && var x, y := s.units[a], s.units[b];
       if Obsolete(o, x) != Obsolete(o, y) then Obsolete(o, x)
       else if x.lastUsed != y.lastUsed then x.lastUsed < y.lastUsed
       else a < b
  }

  ghost predicate Sorted(s: Snapshot, o: GcOptions, order: seq<nat>) {
    && (forall i :: 0 <= i < |order| ==> order[i] < |s.units|)
    && (forall i, j :: 0 <= i < j < |order| ==> Before(s, o, order[i], order[j]))
  }

  function Insert(s: Snapshot, o: GcOptions, order: seq<nat>, u: nat): (r: seq<nat>)
    requires Sorted(s, o, order) && u < |s.units| && u !in order
    ensures Sorted(s, o, r)
    ensures forall v :: v in r <==> v in order || v == u
  {
    if order == [] then [u]
    else if Before(s, o, u, order[0]) then [u] + order
    else
      var rest := Insert(s, o, order[1..], u);
      assert forall k :: 0 <= k < |rest| ==> rest[k] in rest;
      [order[0]] + rest
  }

  function OrderBelow(s: Snapshot, o: GcOptions, n: nat): (r: seq<nat>)
    requires n <= |s.units|
    ensures Sorted(s, o, r)
    ensures forall u :: u in r <==> 0 <= u < n
  {
    if n == 0 then [] else Insert(s, o, OrderBelow(s, o, n - 1), n - 1)
  }

  /** Every unit, in eviction order. */
  function EvictionOrder(s: Snapshot, o: GcOptions): (r: seq<nat>)
    ensures Sorted(s, o, r)
    ensures forall u :: u in r <==> 0 <= u < |s.units|
  {
    OrderBelow(s, o, |s.units|)
  }

  ghost function First(order: seq<nat>, j: nat): set<nat>
    requires j <= |order|
  {
    set u | u in order[..j]
  }

  ghost function FirstExecutables(s: Snapshot, order: seq<nat>, i: nat): set<nat>
    requires i <= |order|
  {
    set u | u in order[..i] && IsExecutable(s, u)
  }

  // ----- The eviction counters ---------------------------------------------

  /** Units whose reference a blob still counts. */
  ghost function Live(s: Snapshot, evicted: set<nat>, b: nat): set<nat>
    requires |s.referrers| == |s.blobs| && b < |s.blobs|
  {
    (set u | u in s.referrers[b]) - evicted
  }

  ghost function FreedBlobs(freed: seq<(nat, nat)>): set<nat> {
    set i | 0 <= i < |freed| :: freed[i].0
  }

  /** The freed list names exactly the blobs in `dead`, each once, attributed
      to an evicted unit that referred to it. */
  ghost predicate Frees(s: Snapshot, dead: set<nat>, evicted: set<nat>, freed: seq<(nat, nat)>) {
    && (forall i, j :: 0 <= i < j < |freed| ==> freed[i].0 != freed[j].0)
    && FreedBlobs(freed) == dead
    && (forall i :: 0 <= i < |freed| ==>
          freed[i].1 in evicted && freed[i].1 < |s.units| && freed[i].0 in s.units[freed[i].1].blobs)
  }

  lemma {:induction false} DistinctCardinality<T>(s: seq<T>)
    requires Distinct(s)
    ensures |set x | x in s| == |s|
  {
    if s != [] {
      var rest := s[..|s| - 1];
      DistinctCardinality(rest);
      assert (set x | x in s) == (set x | x in rest) + {s[|s| - 1]};
    }
  }

  /** Evicting a unit takes exactly its own reference away from each blob it
      names, and the last reference going is the blob's death. */
  lemma {:induction false} LosesOneReference(s: Snapshot, evicted: set<nat>, u: nat, b: nat)
    requires WellFormed(s) && u < |s.units| && u !in evicted && b in s.units[u].blobs
    ensures b < |s.blobs|
    ensures |Live(s, evicted, b)| == |Live(s, evicted + {u}, b)| + 1
    ensures b in Dead(s, evicted + {u}) <==> |Live(s, evicted + {u}, b)| == 0
    ensures b in Referenced(s) && b !in Dead(s, evicted)
  {
    assert UnitOk(s, u) && BlobOk(s, b);
    assert Live(s, evicted, b) == Live(s, evicted + {u}, b) + {u};
    if Live(s, evicted + {u}, b) == {} {
      forall v | v in s.referrers[b]
        ensures v in evicted + {u}
      {
        assert v !in Live(s, evicted + {u}, b);
      }
    }
  }

  /** Blobs that do not name the unit are untouched by its eviction. */
  lemma {:induction false} KeepsOtherReferences(s: Snapshot, evicted: set<nat>, u: nat, b: nat)
    requires WellFormed(s) && u < |s.units| && b < |s.blobs| && b !in s.units[u].blobs
    ensures Live(s, evicted, b) == Live(s, evicted + {u}, b)
    ensures b in Dead(s, evicted + {u}) <==> b in Dead(s, evicted)
  {
    assert BlobOk(s, b);
  }

  /** The blobs freed when `u` has given up only the references in `done`. */
  ghost function DeadSoFar(s: Snapshot, before: set<nat>, u: nat, done: set<nat>): set<nat>
    requires |s.referrers| == |s.blobs|
  {
    Dead(s, before) + (Dead(s, before + {u}) * done)
  }

  lemma {:induction false} DeadSoFarStep(s: Snapshot, before: set<nat>, u: nat, done: set<nat>, b: nat)
    requires WellFormed(s) && u < |s.units| && u !in before && b in s.units[u].blobs && b !in done
    ensures b < |s.blobs| && b in Referenced(s) && b !in DeadSoFar(s, before, u, done)
    ensures |Live(s, before, b)| == |Live(s, before + {u}, b)| + 1
    ensures |Live(s, before + {u}, b)| == 0 ==> b in Dead(s, before + {u})
    ensures DeadSoFar(s, before, u, done + {b})
      == DeadSoFar(s, before, u, done) + if |Live(s, before + {u}, b)| == 0 then {b} else {}
  {
    LosesOneReference(s, before, u, b);
    var after := Dead(s, before + {u});
    assert after * (done + {b}) == after * done + if b in after then {b} else {};
  }

  lemma {:induction false} DeadSoFarEnds(s: Snapshot, before: set<nat>, u: nat, done: set<nat>)
    requires WellFormed(s) && u < |s.units| && u !in before
    requires forall b :: b in done <==> b in s.units[u].blobs
    ensures DeadSoFar(s, before, u, done) == Dead(s, before + {u})
    ensures forall b :: 0 <= b < |s.blobs| && b !in done ==> Live(s, before, b) == Live(s, before + {u}, b)
  {
    forall b | 0 <= b < |s.blobs| && b !in done
      ensures Live(s, before, b) == Live(s, before + {u}, b)
      ensures b in Dead(s, before + {u}) <==> b in Dead(s, before)
    {
      KeepsOtherReferences(s, before, u, b);
    }
  }

  lemma {:induction false} FreesOneMore(s: Snapshot, dead: set<nat>, evicted: set<nat>, freed: seq<(nat, nat)>, b: nat, u: nat)
    requires Frees(s, dead, evicted, freed)
    requires b !in dead && u in evicted && u < |s.units| && b in s.units[u].blobs
    ensures Frees(s, dead + {b}, evicted, freed + [(b, u)])
  {
    var longer := freed + [(b, u)];
    assert longer[|freed|] == (b, u);
    forall i | 0 <= i < |freed|
      ensures freed[i].0 in FreedBlobs(freed) && freed[i].0 in FreedBlobs(longer)
    {
      assert longer[i] == freed[i];
    }
    assert FreedBlobs(longer) == FreedBlobs(freed) + {b};
  }

  lemma {:induction false} RemoveBlob(s: Snapshot, d: set<nat>, dead: set<nat>, b: nat)
    requires b in d && b !in dead && b < |s.blobs|
    ensures Bytes(s, d - (dead + {b})) == SaturatingSub(Bytes(s, d - dead), s.blobs[b].bytes)
  {
    assert d - dead == (d - (dead + {b})) + {b};
    BytesBelowAdd(s.blobs, d - (dead + {b}), b, |s.blobs|);
  }

  /** The numbers the eviction loops keep up to date. */
  datatype Counters = Counters(remaining: seq<nat>, freed: seq<(nat, nat)>, bytesAfter: nat, executableBytes: nat)

  /** One reference from `u` to `b` goes; the last one frees the blob. */
  function Dropped(s: Snapshot, c: Counters, u: nat, b: nat): Counters
    requires u < |s.units| && b < |s.blobs| == |c.remaining| && c.remaining[b] > 0
  {
    var remaining := c.remaining[b := c.remaining[b] - 1];
    if remaining[b] > 0 then c.(remaining := remaining)
    else
      Counters(
        remaining,
        c.freed + [(b, u)],
        SaturatingSub(c.bytesAfter, s.blobs[b].bytes),
        if s.units[u].kind == Executable then SaturatingSub(c.executableBytes, s.blobs[b].bytes) else c.executableBytes)
  }

  ghost predicate CountOk(s: Snapshot, c: Counters, evicted: set<nat>, b: nat)
    requires b < |s.blobs| == |s.referrers| == |c.remaining|
  {
    c.remaining[b] == |Live(s, evicted, b)|
  }

  ghost predicate HalfCountOk(s: Snapshot, c: Counters, before: set<nat>, u: nat, done: set<nat>, b: nat)
    requires b < |s.blobs| == |s.referrers| == |c.remaining|
  {
    CountOk(s, c, if b in done then before + {u} else before, b)
  }

  /** The counters agree with the definition of what evicting `before`, and
      the references of `u` in `done`, frees. */
  ghost predicate Halfway(s: Snapshot, now: nat, before: set<nat>, u: nat, done: set<nat>, counting: bool, c: Counters)
    requires |s.referrers| == |s.blobs|
  {
    var dead := DeadSoFar(s, before, u, done);
    && |c.remaining| == |s.blobs|
    && (forall b :: 0 <= b < |s.blobs| ==> HalfCountOk(s, c, before, u, done, b))
    && Frees(s, dead, before + {u}, c.freed)
    && c.bytesAfter == Bytes(s, Kept(s, now) - dead)
    && (counting ==> c.executableBytes == Bytes(s, ExecutableOnly(s) - dead))
  }

  /** The counters agree with what evicting exactly `evicted` frees. */
  ghost predicate Exact(s: Snapshot, now: nat, evicted: set<nat>, c: Counters)
    requires |s.referrers| == |s.blobs|
  {
    && |c.remaining| == |s.blobs|
    && (forall b :: 0 <= b < |s.blobs| ==> CountOk(s, c, evicted, b))
    && Frees(s, Dead(s, evicted), evicted, c.freed)
    && c.bytesAfter == BytesAfter(s, now, evicted)
  }

  lemma {:induction false} NothingEvicted(s: Snapshot, now: nat, c: Counters)
    requires WellFormed(s) && |c.remaining| == |s.blobs|
    requires forall b :: 0 <= b < |s.blobs| ==> c.remaining[b] == |s.referrers[b]|
    requires c.freed == [] && c.bytesAfter == BytesAfter(s, now, {})
    ensures Exact(s, now, {}, c)
  {
    forall b | 0 <= b < |s.blobs|
      ensures CountOk(s, c, {}, b)
    {
      assert BlobOk(s, b);
      DistinctCardinality(s.referrers[b]);
      assert Live(s, {}, b) == set u | u in s.referrers[b];
    }
    forall b | 0 <= b < |s.blobs| && |s.referrers[b]| > 0
      ensures b !in Dead(s, {})
    {
      assert s.referrers[b][0] in s.referrers[b];
    }
    assert Dead(s, {}) == {} == FreedBlobs(c.freed);
  }

  lemma {:induction false} StartsHalfway(s: Snapshot, now: nat, before: set<nat>, u: nat, counting: bool, c: Counters)
    requires WellFormed(s) && Exact(s, now, before, c)
    requires counting ==> c.executableBytes == ExecutableBytes(s, before)
    ensures Halfway(s, now, before, u, {}, counting, c)
  {
    assert DeadSoFar(s, before, u, {}) == Dead(s, before);
    forall b | 0 <= b < |s.blobs|
      ensures HalfCountOk(s, c, before, u, {}, b)
    {
      assert CountOk(s, c, before, b);
    }
  }

  lemma {:induction false} EndsExact(s: Snapshot, now: nat, before: set<nat>, u: nat, done: set<nat>, counting: bool, c: Counters)
    requires WellFormed(s) && u < |s.units| && u !in before
    requires forall b :: b in done <==> b in s.units[u].blobs
    requires Halfway(s, now, before, u, done, counting, c)
    ensures Exact(s, now, before + {u}, c)
    ensures counting ==> c.executableBytes == ExecutableBytes(s, before + {u})
  {
    DeadSoFarEnds(s, before, u, done);
    forall b | 0 <= b < |s.blobs|
      ensures CountOk(s, c, before + {u}, b)
    {
      assert HalfCountOk(s, c, before, u, done, b);
    }
  }

  /** Freeing one more blob keeps the freed list and both byte counts exact. */
  lemma {:induction false} FreeingStaysExact(
      s: Snapshot, now: nat, dead: set<nat>, evicted: set<nat>, counting: bool, c: Counters, u: nat, b: nat)
    requires |s.referrers| == |s.blobs| && u < |s.units| && b < |s.blobs|
    requires b in Referenced(s) && b !in dead && u in evicted && b in s.units[u].blobs
    requires counting ==> b in ExecutableOnly(s) && IsExecutable(s, u)
    requires Frees(s, dead, evicted, c.freed)
    requires c.bytesAfter == Bytes(s, Kept(s, now) - dead)
    requires counting ==> c.executableBytes == Bytes(s, ExecutableOnly(s) - dead)
    ensures Frees(s, dead + {b}, evicted, c.freed + [(b, u)])
    ensures SaturatingSub(c.bytesAfter, s.blobs[b].bytes) == Bytes(s, Kept(s, now) - (dead + {b}))
    ensures counting ==>
      SaturatingSub(c.executableBytes, s.blobs[b].bytes) == Bytes(s, ExecutableOnly(s) - (dead + {b}))
  {
    FreesOneMore(s, dead, evicted, c.freed, b, u);
    RemoveBlob(s, Kept(s, now), dead, b);
    if counting {
      RemoveBlob(s, ExecutableOnly(s), dead, b);
    }
  }

  lemma {:induction false} DroppedCounts(s: Snapshot, before: set<nat>, u: nat, done: set<nat>, c: Counters, b: nat)
    requires |s.blobs| == |s.referrers| == |c.remaining| && b < |s.blobs| && u < |s.units| && b !in done
    requires |Live(s, before, b)| == |Live(s, before + {u}, b)| + 1
    requires forall x :: 0 <= x < |s.blobs| ==> HalfCountOk(s, c, before, u, done, x)
    ensures c.remaining[b] == |Live(s, before, b)|
    ensures forall x :: 0 <= x < |s.blobs| ==> HalfCountOk(s, Dropped(s, c, u, b), before, u, done + {b}, x)
  {
    assert HalfCountOk(s, c, before, u, done, b);
    forall x | 0 <= x < |s.blobs|
      ensures HalfCountOk(s, Dropped(s, c, u, b), before, u, done + {b}, x)
    {
      assert HalfCountOk(s, c, before, u, done, x);
    }
  }

  lemma {:induction false} DroppedStaysExact(
      s: Snapshot, now: nat, before: set<nat>, u: nat, done: set<nat>, counting: bool, c: Counters, b: nat)
    requires WellFormed(s)
    requires u < |s.units| && u !in before && b in s.units[u].blobs && b !in done
    requires counting ==> forall v :: v in before + {u} ==> IsExecutable(s, v)
    requires Halfway(s, now, before, u, done, counting, c)
    ensures b < |s.blobs| && c.remaining[b] > 0
    ensures Halfway(s, now, before, u, done + {b}, counting, Dropped(s, c, u, b))
  {
    DeadSoFarStep(s, before, u, done, b);
    DroppedCounts(s, before, u, done, c, b);
    if c.remaining[b] == 1 {
      FreeingStaysExact(s, now, DeadSoFar(s, before, u, done), before + {u}, counting, c, u, b);
    }
  }

  /** The mutable half of planning: the counters the eviction loops share. */
  class Eviction {
    const s: Snapshot
    ghost const now: nat
    const remaining: array<nat>
    const evicted: array<bool>
    var freed: seq<(nat, nat)>
    var bytesAfter: nat
    var executableBytes: nat

    ghost function Evicted(): set<nat>
      reads evicted
    {
      set u | 0 <= u < evicted.Length && evicted[u]
    }

    ghost function Count(): Counters
      reads this, remaining
    {
      Counters(remaining[..], freed, bytesAfter, executableBytes)
    }

    /** The counters agree with the definition of what the evicted units free. */
    ghost predicate Valid()
      reads this, remaining, evicted
    {
      && WellFormed(s)
      && remaining.Length == |s.blobs|
      && evicted.Length == |s.units|
      && Exact(s, now, Evicted(), Count())
    }

    constructor (s: Snapshot, ghost now: nat, bytesAfter: nat, executableBytes: nat)
      requires WellFormed(s)
      requires bytesAfter == BytesAfter(s, now, {})
      ensures Valid() && Evicted() == {}
      ensures this.s == s && this.now == now && this.executableBytes == executableBytes
      ensures fresh(remaining) && fresh(evicted)
    {
      this.s, this.now := s, now;
      this.freed, this.bytesAfter, this.executableBytes := [], bytesAfter, executableBytes;
      this.remaining := new nat[|s.referrers|](i requires 0 <= i < |s.referrers| => |s.referrers[i]|);
      this.evicted := new bool[|s.units|](_ => false);
      new;
      assert Evicted() == {};
      NothingEvicted(s, now, Count());
    }

    /** Takes the reference from `u` off one blob. */
    method Unreference(u: nat, b: nat)
      requires u < |s.units| && b < |s.blobs| == remaining.Length && remaining[b] > 0
      modifies this`freed, this`bytesAfter, this`executableBytes, remaining
      ensures Count() == Dropped(s, old(Count()), u, b)
    {
      remaining[b] := remaining[b] - 1;
      if remaining[b] == 0 {
        freed := freed + [(b, u)];
        var bytes := s.blobs[b].bytes;
        bytesAfter := SaturatingSub(bytesAfter, bytes);
        if s.units[u].kind == Executable {
          executableBytes := SaturatingSub(executableBytes, bytes);
        }
      }
    }

    /** Takes every reference of a newly evicted unit off the blobs it names. */
    method UnreferenceAll(u: nat, ghost before: set<nat>, ghost counting: bool)
      requires WellFormed(s) && u < |s.units| && u !in before
      requires remaining.Length == |s.blobs| && Exact(s, now, before, Count())
      requires counting ==> executableBytes == ExecutableBytes(s, before)
      requires counting ==> forall v :: v in before + {u} ==> IsExecutable(s, v)
      modifies this`freed, this`bytesAfter, this`executableBytes, remaining
      ensures Exact(s, now, before + {u}, Count())
      ensures counting ==> executableBytes == ExecutableBytes(s, before + {u})
    {
      var blobs := s.units[u].blobs;
      ghost var done: set<nat> := {};
      StartsHalfway(s, now, before, u, counting, Count());
      assert UnitOk(s, u);
      for i := 0 to |blobs|
        invariant forall b :: b in done <==> b in blobs[..i]
        invariant Halfway(s, now, before, u, done, counting, Count())
      {
        DroppedStaysExact(s, now, before, u, done, counting, Count(), blobs[i]);
        Unreference(u, blobs[i]);
        done := done + {blobs[i]};
        assert blobs[..i + 1] == blobs[..i] + [blobs[i]];
      }
      EndsExact(s, now, before, u, done, counting, Count());
    }

    /** Evicts one unit, once: a second call for the same unit does nothing.
        While only executables go, `executableBytes` stays what evicting the
        remaining executables would free. */
    method Evict(u: nat, ghost counting: bool)
      requires Valid() && u < |s.units|
      requires counting ==> executableBytes == ExecutableBytes(s, Evicted())
      requires counting ==> forall v :: v in Evicted() + {u} ==> IsExecutable(s, v)
      modifies this`freed, this`bytesAfter, this`executableBytes, remaining, evicted
      ensures Valid()
      ensures Evicted() == old(Evicted()) + {u}
      ensures counting ==> executableBytes == ExecutableBytes(s, Evicted())
    {
      ghost var before := Evicted();
      if evicted[u] {
        assert before + {u} == before;
        return;
      }
      evicted[u] := true;
      assert Evicted() == before + {u};
      UnreferenceAll(u, before, counting);
      assert Evicted() == before + {u};
    }
  }

  // ----- Plan::new ---------------------------------------------------------

  predicate OnlyExecutables(s: Snapshot, b: nat)
    requires b < |s.referrers|
  {
    |s.referrers[b]| > 0 && forall u :: u in s.referrers[b] ==> u < |s.units| && s.units[u].kind == Executable
  }

  /** Where the executable pass stops: the first point at which the bytes only
      executables refer to fit, or the end. */
  ghost predicate ExecutableCut(s: Snapshot, o: GcOptions, order: seq<nat>, i: nat)
    requires |s.referrers| == |s.blobs|
  {
    && i <= |order|
    && match o.maxExecutableBytes
       case None => i == 0
       case Some(budget) =>
         && (i < |order| ==> ExecutableBytes(s, FirstExecutables(s, order, i)) <= budget)
         && forall k :: 0 <= k < i ==> ExecutableBytes(s, FirstExecutables(s, order, k)) > budget
  }

  /** The units gone after `i` steps of the executable pass and `j` of the overall pass. */
  ghost function EvictedAt(s: Snapshot, order: seq<nat>, i: nat, j: nat): set<nat>
    requires i <= |order| && j <= |order|
  {
    FirstExecutables(s, order, i) + First(order, j)
  }

  ghost predicate MayStop(s: Snapshot, o: GcOptions, now: nat, order: seq<nat>, i: nat, j: nat)
    requires |s.referrers| == |s.blobs| && i <= |order| && j < |order| && order[j] < |s.units|
  {
    BytesAfter(s, now, EvictedAt(s, order, i, j)) <= o.maxBytes && !Obsolete(o, s.units[order[j]])
  }

  /** Where the overall pass stops: the first point at which everything fits
      and the next unit is not obsolete, or the end. */
  ghost predicate OverallCut(s: Snapshot, o: GcOptions, now: nat, order: seq<nat>, i: nat, j: nat)
    requires |s.referrers| == |s.blobs| && i <= |order|
    requires forall k :: 0 <= k < |order| ==> order[k] < |s.units|
  {
    && j <= |order|
    && (j < |order| ==> MayStop(s, o, now, order, i, j))
    && forall k :: 0 <= k < j ==> !MayStop(s, o, now, order, i, k)
  }

  ghost function EvictedBy(p: Plan): set<nat> {
    set u | 0 <= u < |p.evicted| && p.evicted[u]
  }

  ghost function Elements(s: seq<nat>): set<nat> {
    set x | x in s
  }

  predicate IsYoung(s: Snapshot, now: nat, b: nat)
    requires b < |s.blobs|
  {
    SaturatingSub(now, s.blobs[b].modified) < GRACE_MS
  }

  lemma {:induction false} AllBytes(s: Snapshot)
    requires |s.referrers| == |s.blobs|
    ensures Bytes(s, Referenced(s) + Orphans(s)) == SumBytes(s.blobs)
  {
    BytesBelowAll(s.blobs, Referenced(s) + Orphans(s), |s.blobs|);
    assert s.blobs[..|s.blobs|] == s.blobs;
  }

  datatype Sweep = Sweep(unreferenced: seq<nat>, spared: nat, bytesAfter: nat)

  /** The first pass over the blobs, one blob at a time. */
  function Swept(s: Snapshot, now: nat, n: nat): Sweep
    requires n <= |s.blobs| == |s.referrers|
  {
    if n == 0 then Sweep([], 0, s.totalBytes) else
      var b := n - 1;
      var w := Swept(s, now, b);
      if |s.referrers[b]| > 0 then w
      else if IsYoung(s, now, b) then w.(spared := w.spared + 1)
      else Sweep(w.unreferenced + [b], w.spared, SaturatingSub(w.bytesAfter, s.blobs[b].bytes))
  }

  ghost function Below(d: set<nat>, n: nat): set<nat> {
    set b | b in d && b < n
  }

  lemma {:induction false} BelowNext(d: set<nat>, n: nat)
    ensures Below(d, n + 1) == Below(d, n) + if n in d then {n} else {}
    ensures n !in Below(d, n)
  {
  }

  lemma {:induction false} SweepListsOldOrphans(s: Snapshot, now: nat, n: nat)
    requires WellFormed(s) && n <= |s.blobs|
    ensures Distinct(Swept(s, now, n).unreferenced)
    ensures Elements(Swept(s, now, n).unreferenced) == Below(OldOrphans(s, now), n)
  {
    if n > 0 {
      SweepListsOldOrphans(s, now, n - 1);
      BelowNext(OldOrphans(s, now), n - 1);
      var w := Swept(s, now, n - 1).unreferenced;
      assert n - 1 !in Elements(w);
      assert Elements(w + [n - 1]) == Elements(w) + {n - 1};
    }
  }

  lemma {:induction false} SweepCountsYoungOrphans(s: Snapshot, now: nat, n: nat)
    requires WellFormed(s) && n <= |s.blobs|
    ensures Swept(s, now, n).spared == |Below(Orphans(s) - OldOrphans(s, now), n)|
  {
    if n > 0 {
      SweepCountsYoungOrphans(s, now, n - 1);
      BelowNext(Orphans(s) - OldOrphans(s, now), n - 1);
    }
  }

  lemma {:induction false} SweepSubtractsOldOrphans(s: Snapshot, now: nat, n: nat)
    requires WellFormed(s) && n <= |s.blobs|
    ensures Swept(s, now, n).bytesAfter == Bytes(s, Referenced(s) + Orphans(s) - Below(OldOrphans(s, now), n))
  {
    var everything := Referenced(s) + Orphans(s);
    if n == 0 {
      AllBytes(s);
      assert everything - Below(OldOrphans(s, now), 0) == everything;
    } else {
      SweepSubtractsOldOrphans(s, now, n - 1);
      BelowNext(OldOrphans(s, now), n - 1);
      if n - 1 in OldOrphans(s, now) {
        RemoveBlob(s, everything, Below(OldOrphans(s, now), n - 1), n - 1);
      } else {
        assert Below(OldOrphans(s, now), n) == Below(OldOrphans(s, now), n - 1);
      }
    }
  }

  lemma {:induction false} SweepFindsOrphans(s: Snapshot, now: nat)
    requires WellFormed(s)
    ensures var w := Swept(s, now, |s.blobs|);
      && Distinct(w.unreferenced)
      && Elements(w.unreferenced) == OldOrphans(s, now)
      && w.spared == |Orphans(s) - OldOrphans(s, now)|
      && w.bytesAfter == BytesAfter(s, now, {})
  {
    SweepListsOldOrphans(s, now, |s.blobs|);
    SweepCountsYoungOrphans(s, now, |s.blobs|);
    SweepSubtractsOldOrphans(s, now, |s.blobs|);
    assert Below(OldOrphans(s, now), |s.blobs|) == OldOrphans(s, now);
    assert Below(Orphans(s) - OldOrphans(s, now), |s.blobs|) == Orphans(s) - OldOrphans(s, now);
    OnlyUnreferencedDies(s, {});
    assert Surviving(s, now, {}) == Referenced(s) + Orphans(s) - OldOrphans(s, now);
  }

  /** The unreferenced blobs past their grace period, in blob order, and how
      many younger ones stay. */
  method FindOrphans(s: Snapshot, now: nat) returns (unreferenced: seq<nat>, spared: nat, bytesAfter: nat)
    requires WellFormed(s)
    ensures Distinct(unreferenced) && Elements(unreferenced) == OldOrphans(s, now)
    ensures spared == |Orphans(s) - OldOrphans(s, now)|
    ensures bytesAfter == BytesAfter(s, now, {})
  {
    unreferenced, spared, bytesAfter := [], 0, s.totalBytes;
    for b := 0 to |s.blobs|
      invariant Sweep(unreferenced, spared, bytesAfter) == Swept(s, now, b)
    {
      if |s.referrers[b]| == 0 {
        if IsYoung(s, now, b) {
          spared := spared + 1;
        } else {
          unreferenced := unreferenced + [b];
          bytesAfter := SaturatingSub(bytesAfter, s.blobs[b].bytes);
        }
      }
    }
    SweepFindsOrphans(s, now);
  }

  lemma {:induction false} OnlyUnreferencedDies(s: Snapshot, evicted: set<nat>)
    requires WellFormed(s) && evicted == {}
    ensures Dead(s, evicted) == {}
  {
    forall b | 0 <= b < |s.blobs| && |s.referrers[b]| > 0
      ensures b !in Dead(s, evicted)
    {
      assert s.referrers[b][0] in s.referrers[b];
    }
  }

  method CountExecutableBytes(s: Snapshot) returns (bytes: nat)
    requires WellFormed(s)
    ensures bytes == ExecutableBytes(s, {})
  {
    bytes := 0;
    for b := 0 to |s.blobs|
      invariant bytes == BytesBelow(s.blobs, ExecutableOnly(s), b)
    {
      if OnlyExecutables(s, b) {
        bytes := bytes + s.blobs[b].bytes;
      }
    }
    OnlyUnreferencedDies(s, {});
    assert ExecutableOnly(s) - {} == ExecutableOnly(s);
  }

  /** What `NewPlan` guarantees about its result, for the points where its two
      passes stopped. */
  ghost predicate Planned(s: Snapshot, o: GcOptions, now: nat, p: Plan, i: nat, j: nat) {
    var order := EvictionOrder(s, o);
    && WellFormed(s)
    && |p.evicted| == |s.units|
    && ExecutableCut(s, o, order, i)
    && OverallCut(s, o, now, order, i, j)
    && EvictedBy(p) == EvictedAt(s, order, i, j)
    && Frees(s, Dead(s, EvictedBy(p)), EvictedBy(p), p.freed)
    && Distinct(p.unreferenced) && Elements(p.unreferenced) == OldOrphans(s, now)
    && p.protectedUnreferenced == |Orphans(s) - OldOrphans(s, now)|
    && p.bytesAfter == BytesAfter(s, now, EvictedBy(p))
  }

  lemma {:induction false} CountersMakeThePlan(s: Snapshot, o: GcOptions, now: nat, p: Plan, i: nat, j: nat, c: Counters)
    requires WellFormed(s) && |p.evicted| == |s.units|
    requires ExecutableCut(s, o, EvictionOrder(s, o), i) && OverallCut(s, o, now, EvictionOrder(s, o), i, j)
    requires EvictedBy(p) == EvictedAt(s, EvictionOrder(s, o), i, j)
    requires Exact(s, now, EvictedBy(p), c) && p.freed == c.freed && p.bytesAfter == c.bytesAfter
    requires Distinct(p.unreferenced) && Elements(p.unreferenced) == OldOrphans(s, now)
    requires p.protectedUnreferenced == |Orphans(s) - OldOrphans(s, now)|
    ensures Planned(s, o, now, p, i, j)
  {
    hide BlobOk, UnitOk, EvictedAt, OverallCut, ExecutableCut, BytesAfter, Frees;
  }

  method NewPlan(s: Snapshot, o: GcOptions, now: nat) returns (p: Plan)
    requires WellFormed(s)
    ensures exists i: nat, j: nat :: Planned(s, o, now, p, i, j)
  {
    hide BlobOk, UnitOk, Before, Exact, OverallCut, ExecutableCut, EvictedAt, FirstExecutables, Planned, BytesAfter;
    var unreferenced, spared, bytesAfter := FindOrphans(s, now);
    var order := EvictionOrder(s, o);
    var executableBytes := CountExecutableBytes(s);
    var eviction := new Eviction(s, now, bytesAfter, executableBytes);
    ghost var i := EvictExecutables(eviction, o, order);
    ghost var j := EvictToFit(eviction, o, order, i);
    p := Plan(eviction.evicted[..], eviction.freed, unreferenced, spared, eviction.bytesAfter);
    assert EvictedBy(p) == eviction.Evicted();
    CountersMakeThePlan(s, o, now, p, i, j, eviction.Count());
  }

  method EvictExecutables(eviction: Eviction, o: GcOptions, order: seq<nat>) returns (ghost i: nat)
    requires eviction.Valid() && eviction.Evicted() == {}
    requires Sorted(eviction.s, o, order)
    requires eviction.executableBytes == ExecutableBytes(eviction.s, {})
    modifies eviction, eviction.remaining, eviction.evicted
    ensures eviction.Valid()
    ensures i <= |order| && ExecutableCut(eviction.s, o, order, i)
    ensures eviction.Evicted() == FirstExecutables(eviction.s, order, i)
  {
    hide Exact, BytesAfter, ExecutableBytes, Live, Dead;
    i := 0;
    assert FirstExecutables(eviction.s, order, 0) == {};
    if o.maxExecutableBytes.Some? {
      var budget := o.maxExecutableBytes.value;
      var k := 0;
      while k < |order|
        invariant 0 <= k <= |order| && i == k
        invariant eviction.Valid()
        invariant eviction.Evicted() == FirstExecutables(eviction.s, order, k)
        invariant eviction.executableBytes == ExecutableBytes(eviction.s, eviction.Evicted())
        invariant forall m :: 0 <= m < k ==> ExecutableBytes(eviction.s, FirstExecutables(eviction.s, order, m)) > budget
      {
        if eviction.executableBytes <= budget {
          break;
        }
        assert order[..k + 1] == order[..k] + [order[k]];
        if eviction.s.units[order[k]].kind == Executable {
          eviction.Evict(order[k], true);
          assert eviction.Evicted() == FirstExecutables(eviction.s, order, k + 1);
        } else {
          assert FirstExecutables(eviction.s, order, k + 1) == FirstExecutables(eviction.s, order, k);
        }
        k := k + 1;
        i := k;
      }
    }
  }

  lemma {:induction false} NothingFirst(s: Snapshot, order: seq<nat>, i: nat)
    requires i <= |order|
    ensures EvictedAt(s, order, i, 0) == FirstExecutables(s, order, i)
  {
    hide FirstExecutables;
    assert First(order, 0) == {};
  }

  lemma {:induction false} OneMoreFirst(s: Snapshot, order: seq<nat>, i: nat, k: nat)
    requires i <= |order| && k < |order|
    ensures EvictedAt(s, order, i, k + 1) == EvictedAt(s, order, i, k) + {order[k]}
  {
    hide FirstExecutables;
    assert order[..k + 1] == order[..k] + [order[k]];
  }

  /** The counter decides what the definition of the stopping point asks. */
  lemma {:induction false} StopsHere(s: Snapshot, o: GcOptions, now: nat, order: seq<nat>, i: nat, k: nat, c: Counters)
    requires WellFormed(s) && i <= |order| && k < |order| && order[k] < |s.units|
    requires Exact(s, now, EvictedAt(s, order, i, k), c)
    ensures MayStop(s, o, now, order, i, k) <==> c.bytesAfter <= o.maxBytes && !Obsolete(o, s.units[order[k]])
  {
    hide EvictedAt, BytesAfter, BlobOk, UnitOk;
  }

  method EvictToFit(eviction: Eviction, o: GcOptions, order: seq<nat>, ghost i: nat) returns (ghost j: nat)
    requires eviction.Valid()
    requires Sorted(eviction.s, o, order) && i <= |order|
    requires eviction.Evicted() == FirstExecutables(eviction.s, order, i)
    modifies eviction, eviction.remaining, eviction.evicted
    ensures eviction.Valid()
    ensures OverallCut(eviction.s, o, eviction.now, order, i, j)
    ensures eviction.Evicted() == EvictedAt(eviction.s, order, i, j)
  {
    hide BlobOk, UnitOk, Before, FirstExecutables, EvictedAt, MayStop, Exact;
    j := 0;
    NothingFirst(eviction.s, order, i);
    var k := 0;
    while k < |order|
      invariant 0 <= k <= |order| && j == k
      invariant eviction.Valid()
      invariant eviction.Evicted() == EvictedAt(eviction.s, order, i, k)
      invariant forall m :: 0 <= m < k ==> !MayStop(eviction.s, o, eviction.now, order, i, m)
    {
      StopsHere(eviction.s, o, eviction.now, order, i, k, eviction.Count());
      if eviction.bytesAfter <= o.maxBytes && !Obsolete(o, eviction.s.units[order[k]]) {
        break;
      }
      OneMoreFirst(eviction.s, order, i, k);
      eviction.Evict(order[k], false);
      k := k + 1;
      j := k;
    }
  }
}
