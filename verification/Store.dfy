/**
 The store's own operations, as the server runs them: each is proved to do
 what the collection's steps say.

 The index maps a static key to its candidates, newest first; the blobs are
 known by their digests and the time of their last offer; the journal grows
 by a line for every publication and every hit. The batches of a collection
 and a publication hold the same lock, so each of them is one step, however
 many records or blobs its loops go through.
 */
module Store {
  import opened Collection

  /** What has been published or reused since the rotation, read line by line. */
  class RecentUses {
    var offset: nat
    var uses: set<(Key, Key)>
    var blobs: set<Digest>

    ghost function Value(): Recent
      reads this
    {
      Recent(offset, uses, blobs)
    }

    constructor ()
      ensures Value() == NOTHING_RECENT
    {
      offset, uses, blobs := 0, {}, {};
    }

    /** Reads the whole lines appended since the last call; returns the keys they name. */
    method ReadLines(journal: seq<Line>) returns (keys: set<Key>)
      requires offset <= |journal|
      modifies this`offset, this`uses
      ensures offset == |journal|
      ensures uses == old(uses) + NewUses(old(Value()), journal)
      ensures keys == NewKeys(old(Value()), journal)
    {
      keys := {};
      ghost var first := offset;
      for i := offset to |journal|
        invariant offset == first
        invariant uses == old(uses) + set j | first <= j < i :: (journal[j].key, journal[j].action)
        invariant keys == set j | first <= j < i :: journal[j].key
      {
        uses := uses + {(journal[i].key, journal[i].action)};
        keys := keys + {journal[i].key};
      }
      offset := |journal|;
    }

    /** Protects every blob one index refers to now. */
    method Protect(cs: seq<Candidate>)
      modifies this`blobs
      ensures blobs == old(blobs) + RefsIn(cs)
    {
      for i := 0 to |cs|
        invariant blobs == old(blobs) + RefsIn(cs[..i])
      {
        RefsInAppend(cs[..i], cs[i]);
        assert cs[..i + 1] == cs[..i] + [cs[i]];
        blobs := blobs + cs[i].refs;
      }
      assert cs[..|cs|] == cs;
    }

    method Refresh(journal: seq<Line>, index: Index)
      requires offset <= |journal|
      modifies this
      ensures Value() == Refreshed(old(Value()), journal, index)
    {
      ghost var before := Value();
      var keys := ReadLines(journal);
      ghost var seen: set<Key> := {};
      while keys != {}
        invariant seen + keys == NewKeys(before, journal)
        invariant offset == |journal| && uses == before.uses + NewUses(before, journal)
        invariant blobs == before.blobs + RefsOf(index, seen)
        decreases |keys|
      {
        var k :| k in keys;
        RefsOfOneMore(index, seen, k);
        Protect(Find(index, k));
        keys, seen := keys - {k}, seen + {k};
      }
    }
  }

  ghost function RefsIn(cs: seq<Candidate>): set<Digest> {
    set i, d | 0 <= i < |cs| && d in cs[i].refs :: d
  }

  lemma {:induction false} RefsInAppend(cs: seq<Candidate>, c: Candidate)
    ensures RefsIn(cs + [c]) == RefsIn(cs) + c.refs
  {
    var longer := cs + [c];
    assert longer[|cs|] == c;
    forall d | d in RefsIn(cs)
      ensures d in RefsIn(longer)
    {
      var i :| 0 <= i < |cs| && d in cs[i].refs;
      assert longer[i] == cs[i];
    }
  }

  lemma {:induction false} RefsOfOneMore(index: Index, keys: set<Key>, k: Key)
    ensures RefsOf(index, keys + {k}) == RefsOf(index, keys) + RefsIn(Find(index, k))
  {
    forall d | d in RefsIn(Find(index, k))
      ensures d in RefsOf(index, keys + {k})
    {
      var i :| 0 <= i < |Find(index, k)| && d in Find(index, k)[i].refs;
      assert d in index[k][i].refs;
    }
  }

  class Store {
    var index: Index
    var blobs: map<Digest, nat>
    var journal: seq<Line>

    constructor (index: Index, blobs: map<Digest, nat>, journal: seq<Line>)
      ensures this.index == index && this.blobs == blobs && this.journal == journal
    {
      this.index, this.blobs, this.journal := index, blobs, journal;
    }

    method RecordUse(k: Key, action: Key)
      modifies this`journal
      ensures journal == old(journal) + [Line(k, action)]
    {
      journal := journal + [Line(k, action)];
    }

    /** Keeps a verified copy already present, refreshed; otherwise moves the
        temporary file, with the time it was written, into place. */
    method CommitBlob(d: Digest, now: nat, written: nat) returns (moved: bool)
      modifies this`blobs
      ensures moved <==> d !in old(blobs)
      ensures blobs == old(blobs)[d := if d in old(blobs) then now else written]
    {
      if d in blobs {
        blobs := blobs[d := now];
        moved := false;
      } else {
        blobs := blobs[d := written];
        moved := true;
      }
    }

    method PutCandidate(k: Key, c: Candidate, maxCandidates: nat)
      modifies this`index, this`journal
      ensures index == old(index)[k := Put(Find(old(index), k), c, maxCandidates)]
      ensures journal == old(journal) + [Line(k, c.action)]
    {
      hide Find;
      var found := Find(index, k);
      var kept: seq<Candidate> := [];
      for i := 0 to |found|
        invariant kept == WithoutAction(found[..i], c.action)
      {
        if found[i].action != c.action {
          kept := kept + [found[i]];
        }
        assert found[..i + 1][..i] == found[..i];
      }
      assert found[..|found|] == found;
      kept := [c] + kept;
      var limit := if maxCandidates == 0 then 1 else maxCandidates;
      if |kept| > limit {
        kept := kept[..limit];
      }
      index := index[k := kept];
      RecordUse(k, c.action);
    }

    /** The server's publication: refused, without a trace, unless every blob
        the candidate names is here. */
    method StoreCandidate(k: Key, c: Candidate, maxCandidates: nat) returns (stored: bool)
      modifies this`index, this`journal
      ensures stored <==> c.refs <= blobs.Keys
      ensures stored ==> index == old(index)[k := Put(Find(old(index), k), c, maxCandidates)]
      ensures stored ==> journal == old(journal) + [Line(k, c.action)]
      ensures !stored ==> index == old(index) && journal == old(journal)
    {
      var unchecked := c.refs;
      while unchecked != {}
        invariant unchecked <= c.refs && c.refs - unchecked <= blobs.Keys
        decreases |unchecked|
      {
        var d :| d in unchecked;
        if d !in blobs {
          return false;
        }
        unchecked := unchecked - {d};
      }
      PutCandidate(k, c, maxCandidates);
      stored := true;
    }

    method Retain(cs: seq<Candidate>, k: Key, gone: set<(Key, nat)>, uses: set<(Key, Key)>)
      returns (kept: seq<Candidate>)
      ensures kept == Retained(cs, k, gone, uses)
    {
      kept := [];
      for i := 0 to |cs|
        invariant kept == Retained(cs[..i], k, gone, uses)
      {
        if !Leaves(cs[i], k, gone, uses) {
          kept := kept + [cs[i]];
        }
        assert cs[..i + 1][..i] == cs[..i];
      }
      assert cs[..|cs|] == cs;
    }

    /** Removes the planned candidates from one record file and says how many went. */
    method EvictOne(k: Key, gone: set<(Key, nat)>, uses: set<(Key, Key)>) returns (removed: nat)
      modifies this`index
      ensures index == EvictFrom(old(index), k, gone, uses)
      ensures removed == |Find(old(index), k)| - |Find(index, k)|
    {
      if k !in index {
        return 0;
      }
      var cs := index[k];
      var kept := Retain(cs, k, gone, uses);
      removed := |cs| - |kept|;
      if removed > 0 {
        index := if kept == [] then index - {k} else index[k := kept];
      }
    }

    method EvictBatch(paths: seq<Key>, units: Index, evicted: set<(Key, int)>, recent: RecentUses) returns (removed: nat)
      requires recent.offset <= |journal|
      modifies this`index, recent
      ensures recent.Value() == Refreshed(old(recent.Value()), journal, old(index))
      ensures index == EvictKeys(old(index), paths, units, evicted, recent.uses)
      ensures removed == |Slots(old(index))| - |Slots(index)|
    {
      hide Slots, Gone, Refreshed;
      recent.Refresh(journal, index);
      removed := 0;
      for i := 0 to |paths|
        invariant recent.Value() == Refreshed(old(recent.Value()), journal, old(index))
        invariant index == EvictKeys(old(index), paths[..i], units, evicted, recent.uses)
        invariant removed == |Slots(old(index))| - |Slots(index)|
      {
        SlotsEvicted(index, paths[i], Gone(units, evicted, paths[i]), recent.uses);
        var n := EvictOne(paths[i], Gone(units, evicted, paths[i]), recent.uses);
        removed := removed + n;
        assert paths[..i + 1][..i] == paths[..i];
      }
      assert paths[..|paths|] == paths;
    }

    /** Deletes one planned blob unless it came back to life. */
    method DeleteOne(d: Digest, started: nat, recent: RecentUses) returns (deleted: nat, skipped: nat)
      modifies this`blobs
      ensures blobs == if Deletable(d, old(blobs), started, recent.Value()) then old(blobs) - {d} else old(blobs)
      ensures deleted == if Deletable(d, old(blobs), started, recent.Value()) then 1 else 0
      ensures skipped == if d in blobs then 1 else 0
    {
      deleted, skipped := 0, 0;
      if d in blobs {
        if blobs[d] + COARSE_CLOCK_SLACK_MS >= started || d in recent.blobs {
          skipped := 1;
        } else {
          blobs := blobs - {d};
          deleted := 1;
        }
      }
    }

    /** Deletes a batch of planned blobs and counts what went and what was
        kept because it came back to life. */
    method DeleteBatch(digests: seq<Digest>, started: nat, recent: RecentUses) returns (deleted: nat, skipped: nat)
      requires recent.offset <= |journal|
      requires Distinct(digests)
      modifies this`blobs, recent
      ensures recent.Value() == Refreshed(old(recent.Value()), journal, index)
      ensures blobs == DeleteBlobs(old(blobs), Listed(digests), started, recent.Value())
      ensures deleted == |old(blobs)| - |blobs|
      ensures skipped == |Skipped(Listed(digests), blobs)|
    {
      recent.Refresh(journal, index);
      deleted, skipped := DeleteListed(digests, started, recent);
    }

    method DeleteListed(digests: seq<Digest>, started: nat, recent: RecentUses) returns (deleted: nat, skipped: nat)
      requires Distinct(digests)
      modifies this`blobs
      ensures blobs == DeleteBlobs(old(blobs), Listed(digests), started, recent.Value())
      ensures deleted == |old(blobs)| - |blobs|
      ensures skipped == |Skipped(Listed(digests), blobs)|
    {
      deleted, skipped := 0, 0;
      for i := 0 to |digests|
        invariant blobs == DeleteBlobs(old(blobs), Listed(digests[..i]), started, recent.Value())
        invariant deleted == |old(blobs)| - |blobs|
        invariant skipped == |Skipped(Listed(digests[..i]), blobs)|
      {
        ListOneMore(digests, i);
        DeleteOneMore(old(blobs), Listed(digests[..i]), digests[i], started, recent.Value());
        CountOneMore(blobs, Listed(digests[..i]), digests[i]);
        var gone, kept := DeleteOne(digests[i], started, recent);
        deleted, skipped := deleted + gone, skipped + kept;
      }
      assert digests[..|digests|] == digests;
    }
  }

  /** The candidates of an index, by key and position. */
  ghost function Slots(index: Index): set<(Key, int)> {
    set k, i | k in index && 0 <= i < |index[k]| :: (k, i)
  }

  ghost function SlotsAt(k: Key, n: nat): set<(Key, int)> {
    set i | 0 <= i < n :: (k, i)
  }

  lemma {:induction false} SlotsCount(k: Key, n: nat)
    ensures |SlotsAt(k, n)| == n
  {
    if n > 0 {
      SlotsCount(k, n - 1);
      assert SlotsAt(k, n) == SlotsAt(k, n - 1) + {(k, n - 1)};
    }
  }

  lemma {:induction false} SlotsSplit(index: Index, k: Key)
    ensures |Slots(index)| == |Slots(index - {k})| + |Find(index, k)|
  {
    SlotsCount(k, |Find(index, k)|);
    assert Slots(index) == Slots(index - {k}) + SlotsAt(k, |Find(index, k)|);
  }

  lemma {:induction false} SlotsEvicted(index: Index, k: Key, gone: set<(Key, nat)>, uses: set<(Key, Key)>)
    ensures var left := EvictFrom(index, k, gone, uses);
      |Slots(index)| - |Slots(left)| == |Find(index, k)| - |Find(left, k)|
  {
    hide Slots;
    var left := EvictFrom(index, k, gone, uses);
    SlotsSplit(index, k);
    SlotsSplit(left, k);
    assert left - {k} == index - {k};
  }

  ghost predicate Distinct(digests: seq<Digest>) {
    forall i, j :: 0 <= i < j < |digests| ==> digests[i] != digests[j]
  }

  lemma {:induction false} ListOneMore(digests: seq<Digest>, i: nat)
    requires Distinct(digests) && i < |digests|
    ensures digests[i] !in Listed(digests[..i])
    ensures Listed(digests[..i + 1]) == Listed(digests[..i]) + {digests[i]}
  {
    assert digests[..i + 1] == digests[..i] + [digests[i]];
  }

  ghost function Listed(digests: seq<Digest>): set<Digest> {
    set d | d in digests
  }

  /** The blobs of a batch that stay. */
  ghost function Skipped(done: set<Digest>, left: map<Digest, nat>): set<Digest> {
    done * left.Keys
  }

  lemma {:induction false} DeleteOneMore(blobs: map<Digest, nat>, done: set<Digest>, d: Digest, started: nat, r: Recent)
    requires d !in done
    ensures var left := DeleteBlobs(blobs, done, started, r);
      DeleteBlobs(blobs, done + {d}, started, r) == if Deletable(d, left, started, r) then left - {d} else left
  {
  }

  lemma {:induction false} CountOneMore(left: map<Digest, nat>, done: set<Digest>, d: Digest)
    requires d !in done
    ensures d in left ==> |left - {d}| == |left| - 1
    ensures Skipped(done + {d}, left - {d}) == Skipped(done, left)
    ensures |Skipped(done + {d}, left)| == |Skipped(done, left)| + if d in left then 1 else 0
  {
    if d in left {
      SmallerMap(left, d);
      assert Skipped(done + {d}, left) == Skipped(done, left) + {d};
    } else {
      assert Skipped(done + {d}, left) == Skipped(done, left);
    }
  }

  lemma {:induction false} SmallerMap(m: map<Digest, nat>, d: Digest)
    requires d in m
    ensures |m - {d}| == |m| - 1
  {
    assert m.Keys == (m - {d}).Keys + {d};
  }

  // ----- The index itself --------------------------------------------------

  ghost predicate OneEach(cs: seq<Candidate>) {
    forall i, j :: 0 <= i < j < |cs| ==> cs[i].action != cs[j].action
  }

  lemma {:induction false} WithoutActionKeepsOneEach(cs: seq<Candidate>, action: Key)
    requires OneEach(cs)
    ensures OneEach(WithoutAction(cs, action))
  {
    if cs != [] {
      WithoutActionKeepsOneEach(cs[..|cs| - 1], action);
      var rest := WithoutAction(cs[..|cs| - 1], action);
      forall c | c in rest
        ensures c.action != cs[|cs| - 1].action
      {
        assert c in cs[..|cs| - 1];
      }
      assert forall i :: 0 <= i < |rest| ==> rest[i] in rest;
    }
  }

  /** Publication keeps at most one candidate per action key, the newest first
      and always present, however small the limit. */
  lemma {:induction false} PutKeepsOneEach(cs: seq<Candidate>, c: Candidate, maxCandidates: nat)
    requires OneEach(cs)
    ensures var r := Put(cs, c, maxCandidates);
      OneEach(r) && r != [] && r[0] == c && (|r| <= maxCandidates || |r| == 1)
      && forall x :: x in r && x != c ==> x in cs && x.action != c.action
  {
    WithoutActionKeepsOneEach(cs, c.action);
    var rest := WithoutAction(cs, c.action);
    assert forall i :: 0 <= i < |rest| ==> rest[i] in rest;
  }
}
