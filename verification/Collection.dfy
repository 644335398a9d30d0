/** A collection interleaved with everything else the server does: no candidate
    the index still names ever loses a blob. */
module Collection {

  datatype Key = Key(hex: string)
  datatype Digest = Digest(hex: string)

  const COARSE_CLOCK_SLACK_MS: nat := 50

  datatype Candidate = Candidate(action: Key, created: nat, refs: set<Digest>)

  type Index = map<Key, seq<Candidate>>

  datatype Line = Line(key: Key, action: Key)

  /** What was published or reused since the journal was rotated. */
  datatype Recent = Recent(offset: nat, uses: set<(Key, Key)>, blobs: set<Digest>)

  const NOTHING_RECENT := Recent(0, {}, {})

  /** A publication holds the write lock from the index write until its
      journal line is appended; the journal file is opened in between. */
  datatype Publication =
    | NotPublishing
    | Written(key: Key, action: Key)
    | Opened(key: Key, action: Key, generation: nat)

  datatype Collector =
    | Idle
    | Beginning(started: nat)
    | Walking(started: nat, walked: set<Digest>)
    | Reading(started: nat, walked: set<Digest>, pending: set<Key>, units: Index)
    | Applying(started: nat, units: Index, evicted: set<(Key, int)>, dead: set<Digest>,
               unevicted: set<Key>, undeleted: set<Digest>, recent: Recent)

  datatype State = State(
    now: nat,
    index: Index,
    blobs: map<Digest, nat>,
    journal: seq<Line>,
    generation: nat,
    publishing: Publication,
    collector: Collector)

  datatype Event =
    | Tick(elapsed: nat)
    | Upload(digest: Digest, modified: nat)
    | Touch(digest: Digest)
    | Hit(line: Line)
    | LateHit(line: Line)
    | PublishWrite(key: Key, candidate: Candidate, maxCandidates: nat)
    | PublishOpen
    | PublishAppend
    | Begin
    | Rotate
    | WalkBlob(digest: Digest)
    | ListRecords(keys: set<Key>)
    | ReadRecord(key: Key)
    | MakePlan(evicted: set<(Key, int)>, dead: set<Digest>)
    | EvictBatch(paths: seq<Key>)
    | DeleteBatch(digests: set<Digest>)
    | Stop

  // ----- What each step does to the store ----------------------------------

  ghost predicate Holds(index: Index, k: Key, c: Candidate) {
    k in index && c in index[k]
  }

  function WithoutAction(cs: seq<Candidate>, action: Key): (r: seq<Candidate>)
    ensures forall c :: c in r <==> c in cs && c.action != action
  {
    if cs == [] then [] else
      var rest, last := WithoutAction(cs[..|cs| - 1], action), cs[|cs| - 1];
      if last.action == action then rest else rest + [last]
  }

  /** The newest candidate goes first, replaces any with its action key, and
      pushes out the oldest beyond the limit. */
  function Put(cs: seq<Candidate>, c: Candidate, maxCandidates: nat): seq<Candidate> {
    var all := [c] + WithoutAction(cs, c.action);
    var limit := if maxCandidates == 0 then 1 else maxCandidates;
    if |all| <= limit then all else all[..limit]
  }

  function Find(index: Index, k: Key): seq<Candidate> {
    if k in index then index[k] else []
  }

  /** The keys named by journal lines not yet read. */
  function NewKeys(r: Recent, journal: seq<Line>): set<Key>
    requires r.offset <= |journal|
  {
    set i | r.offset <= i < |journal| :: journal[i].key
  }

  function NewUses(r: Recent, journal: seq<Line>): set<(Key, Key)>
    requires r.offset <= |journal|
  {
    set i | r.offset <= i < |journal| :: (journal[i].key, journal[i].action)
  }

  function RefsOf(index: Index, keys: set<Key>): set<Digest> {
    set k, i, d | k in keys && k in index && 0 <= i < |index[k]| && d in index[k][i].refs :: d
  }

  /** Reads the lines appended since the last refresh and every blob the
      indexes they name refer to now. */
  function Refreshed(r: Recent, journal: seq<Line>, index: Index): Recent
    requires r.offset <= |journal|
  {
    Recent(|journal|, r.uses + NewUses(r, journal), r.blobs + RefsOf(index, NewKeys(r, journal)))
  }

  /** The (action key, creation time) pairs the plan evicts from one index. */
  function Gone(units: Index, evicted: set<(Key, int)>, k: Key): set<(Key, nat)> {
    set i | 0 <= i < |Find(units, k)| && (k, i) in evicted :: (Find(units, k)[i].action, Find(units, k)[i].created)
  }

  predicate Leaves(c: Candidate, k: Key, gone: set<(Key, nat)>, uses: set<(Key, Key)>) {
    (c.action, c.created) in gone && (k, c.action) !in uses
  }

  /** An index without the planned candidates, unless they were used or
      replaced since the snapshot. */
  function Retained(cs: seq<Candidate>, k: Key, gone: set<(Key, nat)>, uses: set<(Key, Key)>): (r: seq<Candidate>)
    ensures forall c :: c in r <==> c in cs && !Leaves(c, k, gone, uses)
    ensures |r| <= |cs| && (|r| == |cs| ==> r == cs)
  {
    if cs == [] then [] else
      var rest, last := Retained(cs[..|cs| - 1], k, gone, uses), cs[|cs| - 1];
      if Leaves(last, k, gone, uses) then rest else rest + [last]
  }

  /** A record file is rewritten only when something left it, and removed when
      nothing is left. */
  function EvictFrom(index: Index, k: Key, gone: set<(Key, nat)>, uses: set<(Key, Key)>): Index {
    if k !in index then index else
      var kept := Retained(index[k], k, gone, uses);
      if |kept| == |index[k]| then index
      else if kept == [] then index - {k}
      else index[k := kept]
  }

  /** One batch of record files, in order. */
  function EvictKeys(index: Index, paths: seq<Key>, units: Index, evicted: set<(Key, int)>, uses: set<(Key, Key)>): Index {
    if paths == [] then index else
      var rest, k := paths[..|paths| - 1], paths[|paths| - 1];
      EvictFrom(EvictKeys(index, rest, units, evicted, uses), k, Gone(units, evicted, k), uses)
  }

  predicate Deletable(d: Digest, blobs: map<Digest, nat>, started: nat, recent: Recent) {
    d in blobs && blobs[d] + COARSE_CLOCK_SLACK_MS < started && d !in recent.blobs
  }

  function DeleteBlobs(blobs: map<Digest, nat>, digests: set<Digest>, started: nat, recent: Recent): map<Digest, nat> {
    map d | d in blobs && !(d in digests && Deletable(d, blobs, started, recent)) :: blobs[d]
  }

  /** A plan only lets go of blobs the walk saw, and only when every candidate
      the snapshot read with such a blob is evicted. */
  ghost predicate PlanOk(walked: set<Digest>, units: Index, evicted: set<(Key, int)>, dead: set<Digest>) {
    && dead <= walked
    && forall k, i, d :: k in units && 0 <= i < |units[k]| && d in dead && d in units[k][i].refs ==> (k, i) in evicted
  }

  // ----- The steps ---------------------------------------------------------

  /** When a step may happen. Batches need the write lock, which a
      publication holds from its index write to its journal line. */
  ghost predicate Enabled(s: State, e: Event) {
    match e
    case Tick(_) => true
    case Upload(d, modified) => modified <= s.now
    case Touch(d) => d in s.blobs
    case Hit(_) => true
    case LateHit(_) => true
    case PublishWrite(k, c, _) => s.publishing.NotPublishing? && c.refs <= s.blobs.Keys
    case PublishOpen => s.publishing.Written?
    case PublishAppend => s.publishing.Opened?
    case Begin => s.collector.Idle?
    case Rotate => s.collector.Beginning?
    case WalkBlob(d) => s.collector.Walking? && d in s.blobs
    case ListRecords(keys) => s.collector.Walking? && s.index.Keys <= keys
    case ReadRecord(k) => s.collector.Reading? && k in s.collector.pending
    case MakePlan(evicted, dead) =>
      s.collector.Reading? && s.collector.pending == {}
      && PlanOk(s.collector.walked, s.collector.units, evicted, dead)
    case EvictBatch(paths) =>
      s.publishing.NotPublishing? && s.collector.Applying?
      && (forall k :: k in paths ==> k in s.collector.unevicted)
      && s.collector.recent.offset <= |s.journal|
    case DeleteBatch(digests) =>
      s.publishing.NotPublishing? && s.collector.Applying?
      && s.collector.unevicted == {} && digests <= s.collector.undeleted
      && s.collector.recent.offset <= |s.journal|
    case Stop => !s.collector.Idle?
  }

  ghost function Apply(s: State, e: Event): State
    requires Enabled(s, e)
  {
    match e
    case Tick(elapsed) => s.(now := s.now + elapsed)
    // A blob already present is refreshed; a new one keeps the time its
    // temporary file was written.
    case Upload(d, modified) => s.(blobs := s.blobs[d := if d in s.blobs then s.now else modified])
    case Touch(d) => s.(blobs := s.blobs[d := s.now])
    case Hit(line) => s.(journal := s.journal + [line])
    // The journal file was opened before the rotation: the line is lost to it.
    case LateHit(_) => s
    case PublishWrite(k, c, maxCandidates) =>
      s.(index := s.index[k := Put(Find(s.index, k), c, maxCandidates)], publishing := Written(k, c.action))
    case PublishOpen => s.(publishing := Opened(s.publishing.key, s.publishing.action, s.generation))
    case PublishAppend =>
      var line := Line(s.publishing.key, s.publishing.action);
      s.(journal := if s.publishing.generation == s.generation then s.journal + [line] else s.journal,
         publishing := NotPublishing)
    case Begin => s.(collector := Beginning(s.now))
    case Rotate => s.(journal := [], generation := s.generation + 1, collector := Walking(s.collector.started, {}))
    case WalkBlob(d) => s.(collector := Walking(s.collector.started, s.collector.walked + {d}))
    case ListRecords(keys) => s.(collector := Reading(s.collector.started, s.collector.walked, keys, map[]))
    case ReadRecord(k) =>
      s.(collector := s.collector.(
           pending := s.collector.pending - {k},
           units := s.collector.units[k := Find(s.index, k)]))
    case MakePlan(evicted, dead) =>
      s.(collector := Applying(s.collector.started, s.collector.units, evicted, dead,
                               set p | p in evicted :: p.0, dead, NOTHING_RECENT))
    case EvictBatch(paths) =>
      var c := s.collector;
      var recent := Refreshed(c.recent, s.journal, s.index);
      s.(index := EvictKeys(s.index, paths, c.units, c.evicted, recent.uses),
         collector := c.(recent := recent, unevicted := c.unevicted - (set k | k in paths)))
    case DeleteBatch(digests) =>
      var c := s.collector;
      var recent := Refreshed(c.recent, s.journal, s.index);
      s.(blobs := DeleteBlobs(s.blobs, digests, c.started, recent),
         collector := c.(recent := recent, undeleted := c.undeleted - digests))
    case Stop => s.(collector := Idle)
  }

  // ----- Safety ------------------------------------------------------------

  /** Every blob an indexed candidate refers to is in the store. */
  ghost predicate Safe(s: State) {
    forall k, c :: Holds(s.index, k, c) ==> c.refs <= s.blobs.Keys
  }

  /** A line for the candidate is in the current journal past `offset`, or
      about to land there. */
  ghost predicate Unread(s: State, offset: nat, k: Key, action: Key) {
    || (s.publishing.Written? && s.publishing.key == k && s.publishing.action == action)
    || (s.publishing.Opened? && s.publishing.key == k && s.publishing.action == action
        && s.publishing.generation == s.generation)
    || exists i :: offset <= i < |s.journal| && s.journal[i] == Line(k, action)
  }

  /** The candidate's blobs are protected already, or will be by the next refresh. */
  ghost predicate Covered(s: State, r: Recent, k: Key, c: Candidate) {
    c.refs <= r.blobs || Unread(s, r.offset, k, c.action)
  }

  ghost predicate Planned(units: Index, evicted: set<(Key, int)>, k: Key, c: Candidate) {
    exists i :: 0 <= i < |Find(units, k)| && Find(units, k)[i] == c && (k, i) in evicted
  }

  /** What is known of one indexed candidate at each stage of a collection:
      the snapshot has it or will, unless it was published since the rotation. */
  ghost predicate Tracked(s: State, k: Key, c: Candidate) {
    match s.collector
    case Idle => true
    case Beginning(_) => true
    case Walking(_, _) => true
    case Reading(_, _, pending, units) =>
      k in pending || Holds(units, k, c) || Unread(s, 0, k, c.action)
    case Applying(_, units, evicted, _, unevicted, _, r) =>
      && (Holds(units, k, c) || Covered(s, r, k, c))
      && ((k, c.action) in r.uses ==> Covered(s, r, k, c))
      && (k !in unevicted && Planned(units, evicted, k, c) ==> Covered(s, r, k, c))
  }

  ghost predicate Inv(s: State) {
    && Safe(s)
    && (forall k, c :: Holds(s.index, k, c) ==> Tracked(s, k, c))
    && (s.collector.Applying? ==>
          && s.collector.recent.offset <= |s.journal|
          && s.collector.undeleted <= s.collector.dead
          && (forall k, c, d :: Holds(s.collector.units, k, c) && d in s.collector.dead && d in c.refs ==>
                Planned(s.collector.units, s.collector.evicted, k, c)))
  }

  lemma {:induction false} EvictedFromHolds(index: Index, at: Key, gone: set<(Key, nat)>, uses: set<(Key, Key)>, k: Key, c: Candidate)
    ensures Holds(EvictFrom(index, at, gone, uses), k, c) <==>
      Holds(index, k, c) && !(k == at && Leaves(c, k, gone, uses))
  {
    if k == at && k in index && Retained(index[k], k, gone, uses) == [] {
      assert c !in Retained(index[k], k, gone, uses);
    }
  }

  /** A batch removes exactly the planned candidates of its record files that
      were not used since the rotation, and nothing else. */
  lemma {:induction false} EvictedHolds(
      index: Index, paths: seq<Key>, units: Index, evicted: set<(Key, int)>, uses: set<(Key, Key)>, k: Key, c: Candidate)
    ensures Holds(EvictKeys(index, paths, units, evicted, uses), k, c) <==>
      Holds(index, k, c) && !(k in paths && Leaves(c, k, Gone(units, evicted, k), uses))
  {
    if paths != [] {
      var rest, last := paths[..|paths| - 1], paths[|paths| - 1];
      EvictedHolds(index, rest, units, evicted, uses, k, c);
      EvictedFromHolds(
        EvictKeys(index, rest, units, evicted, uses), last, Gone(units, evicted, last), uses, k, c);
      assert paths == rest + [last];
    }
  }

  lemma {:induction false} PutHolds(s: State, k: Key, c: Candidate, maxCandidates: nat, x: Candidate)
    requires x in Put(Find(s.index, k), c, maxCandidates)
    ensures x == c || Holds(s.index, k, x)
  {
  }

  /** After a refresh nothing is unread: what was unread is protected now. */
  lemma {:induction false} RefreshCovers(s: State, k: Key, c: Candidate)
    requires s.publishing.NotPublishing? && s.collector.Applying? && s.collector.recent.offset <= |s.journal|
    requires Holds(s.index, k, c) && Tracked(s, k, c)
    ensures var r := Refreshed(s.collector.recent, s.journal, s.index);
      && (Covered(s, s.collector.recent, k, c) ==> c.refs <= r.blobs)
      && ((k, c.action) in r.uses ==> c.refs <= r.blobs)
  {
    var before := s.collector.recent;
    var r := Refreshed(before, s.journal, s.index);
    if k in NewKeys(before, s.journal) {
      var i :| 0 <= i < |s.index[k]| && s.index[k][i] == c;
      forall d | d in c.refs
        ensures d in RefsOf(s.index, NewKeys(before, s.journal))
      {
        assert d in s.index[k][i].refs;
      }
    }
    if (k, c.action) in NewUses(before, s.journal) {
      var i :| before.offset <= i < |s.journal| && (s.journal[i].key, s.journal[i].action) == (k, c.action);
      assert s.journal[i].key in NewKeys(before, s.journal);
    }
    if Unread(s, before.offset, k, c.action) {
      var i :| before.offset <= i < |s.journal| && s.journal[i] == Line(k, c.action);
      assert s.journal[i].key in NewKeys(before, s.journal);
    }
  }

  /** A line stays unread while the journal only grows and a publication that
      stops being pending leaves its line behind. */
  ghost predicate LinesStay(s: State, t: State) {
    && s.generation == t.generation
    && s.journal <= t.journal
    && (s.publishing == t.publishing
        || forall k, a :: Unread(s, |s.journal|, k, a) ==> Unread(t, |s.journal|, k, a))
  }

  lemma {:induction false} UnreadStays(s: State, t: State, offset: nat, k: Key, action: Key)
    requires LinesStay(s, t) && offset <= |s.journal|
    ensures Unread(s, offset, k, action) ==> Unread(t, offset, k, action)
  {
    if Unread(s, offset, k, action) {
      if i :| offset <= i < |s.journal| && s.journal[i] == Line(k, action) {
        assert t.journal[i] == Line(k, action);
      } else {
        assert Unread(s, |s.journal|, k, action);
      }
    }
  }

  /** Steps that leave the collector alone keep what is known of a candidate. */
  lemma {:induction false} TrackedStays(s: State, t: State, k: Key, c: Candidate)
    requires Tracked(s, k, c) && s.collector == t.collector && LinesStay(s, t)
    requires s.collector.Applying? ==> s.collector.recent.offset <= |s.journal|
    ensures Tracked(t, k, c)
  {
    UnreadStays(s, t, 0, k, c.action);
    if s.collector.Applying? {
      UnreadStays(s, t, s.collector.recent.offset, k, c.action);
    }
  }

  lemma {:induction false} PublishKeepsInv(s: State, e: Event)
    requires Inv(s) && Enabled(s, e) && (e.PublishWrite? || e.PublishOpen? || e.PublishAppend?)
    ensures Inv(Apply(s, e))
  {
    var t := Apply(s, e);
    assert LinesStay(s, t) by {
      if e.PublishAppend? && s.publishing.generation == s.generation {
        assert t.journal[|s.journal|] == Line(s.publishing.key, s.publishing.action);
      }
    }
    forall k, c | Holds(t.index, k, c)
      ensures c.refs <= t.blobs.Keys && Tracked(t, k, c)
    {
      if e.PublishWrite? && k == e.key {
        PutHolds(s, k, e.candidate, e.maxCandidates, c);
      }
      if Holds(s.index, k, c) {
        TrackedStays(s, t, k, c);
      }
    }
  }

  lemma {:induction false} ClientKeepsInv(s: State, e: Event)
    requires Inv(s) && Enabled(s, e)
    requires e.Tick? || e.Upload? || e.Touch? || e.Hit? || e.LateHit?
    ensures Inv(Apply(s, e))
  {
    var t := Apply(s, e);
    forall k, c | Holds(t.index, k, c)
      ensures c.refs <= t.blobs.Keys && Tracked(t, k, c)
    {
      TrackedStays(s, t, k, c);
    }
  }

  lemma {:induction false} SnapshotKeepsInv(s: State, e: Event)
    requires Inv(s) && Enabled(s, e)
    requires e.Begin? || e.Rotate? || e.WalkBlob? || e.ListRecords? || e.ReadRecord? || e.Stop?
    ensures Inv(Apply(s, e))
  {
    var t := Apply(s, e);
    forall k, c | Holds(t.index, k, c)
      ensures Tracked(t, k, c)
    {
      assert Holds(s.index, k, c);
    }
  }

  lemma {:induction false} PlanKeepsInv(s: State, e: Event)
    requires Inv(s) && Enabled(s, e) && e.MakePlan?
    ensures Inv(Apply(s, e))
  {
    var t := Apply(s, e);
    var units := s.collector.units;
    forall k, c | Holds(t.index, k, c)
      ensures Tracked(t, k, c)
    {
      assert Tracked(s, k, c);
      if Planned(units, e.evicted, k, c) {
        var i :| 0 <= i < |Find(units, k)| && Find(units, k)[i] == c && (k, i) in e.evicted;
        assert (k, i).0 in t.collector.unevicted;
      }
    }
    forall k, c, d | Holds(units, k, c) && d in e.dead && d in c.refs
      ensures Planned(units, e.evicted, k, c)
    {
      var i :| 0 <= i < |units[k]| && units[k][i] == c;
      assert d in units[k][i].refs;
    }
  }

  lemma {:induction false} EvictKeepsInv(s: State, e: Event)
    requires Inv(s) && Enabled(s, e) && e.EvictBatch?
    ensures Inv(Apply(s, e))
  {
    var t := Apply(s, e);
    var units, evicted, r := s.collector.units, s.collector.evicted, t.collector.recent;
    forall k, c | Holds(t.index, k, c)
      ensures Holds(s.index, k, c) && Tracked(t, k, c)
    {
      EvictedHolds(s.index, e.paths, units, evicted, r.uses, k, c);
      RefreshCovers(s, k, c);
      if k in e.paths && Planned(units, evicted, k, c) {
        var i :| 0 <= i < |Find(units, k)| && Find(units, k)[i] == c && (k, i) in evicted;
        assert (Find(units, k)[i].action, Find(units, k)[i].created) in Gone(units, evicted, k);
        assert (k, c.action) in r.uses;
      }
    }
  }

  lemma {:induction false} DeleteKeepsInv(s: State, e: Event)
    requires Inv(s) && Enabled(s, e) && e.DeleteBatch?
    ensures Inv(Apply(s, e))
  {
    var t := Apply(s, e);
    var c0 := s.collector;
    forall k, c | Holds(t.index, k, c)
      ensures c.refs <= t.blobs.Keys && Tracked(t, k, c)
    {
      RefreshCovers(s, k, c);
      assert Tracked(s, k, c);
      forall d | d in c.refs
        ensures d in t.blobs
      {
        if d in e.digests {
          assert Holds(c0.units, k, c) ==> Planned(c0.units, c0.evicted, k, c);
          assert d in t.collector.recent.blobs;
        }
      }
    }
  }

  lemma {:induction false} StepKeepsInv(s: State, e: Event)
    requires Inv(s) && Enabled(s, e)
    ensures Inv(Apply(s, e))
  {
    match e
    case PublishWrite(_, _, _) => PublishKeepsInv(s, e);
    case PublishOpen => PublishKeepsInv(s, e);
    case PublishAppend => PublishKeepsInv(s, e);
    case MakePlan(_, _) => PlanKeepsInv(s, e);
    case EvictBatch(_) => EvictKeepsInv(s, e);
    case DeleteBatch(_) => DeleteKeepsInv(s, e);
    case Tick(_) => ClientKeepsInv(s, e);
    case Upload(_, _) => ClientKeepsInv(s, e);
    case Touch(_) => ClientKeepsInv(s, e);
    case Hit(_) => ClientKeepsInv(s, e);
    case LateHit(_) => ClientKeepsInv(s, e);
    case _ => SnapshotKeepsInv(s, e);
  }

  // ----- Runs --------------------------------------------------------------

  ghost predicate IsRun(states: seq<State>, events: seq<Event>) {
    && |states| == |events| + 1
    && forall i :: 0 <= i < |events| ==> Enabled(states[i], events[i]) && states[i + 1] == Apply(states[i], events[i])
  }

  lemma {:induction false} RunKeepsInv(states: seq<State>, events: seq<Event>, n: nat)
    requires IsRun(states, events) && n < |states|
    requires Safe(states[0]) && states[0].collector.Idle?
    ensures Inv(states[n])
  {
    if n > 0 {
      RunKeepsInv(states, events, n - 1);
      StepKeepsInv(states[n - 1], events[n - 1]);
    }
  }

  /** In every state of every run, however many collections it holds and
      however publications, hits and uploads interleave with them, every blob
      of every indexed candidate is present. */
  lemma {:induction false} NoCandidateLosesABlob(states: seq<State>, events: seq<Event>, n: nat, k: Key, c: Candidate)
    requires IsRun(states, events) && n < |states|
    requires Safe(states[0]) && states[0].collector.Idle?
    requires Holds(states[n].index, k, c)
    ensures c.refs <= states[n].blobs.Keys
  {
    RunKeepsInv(states, events, n);
  }

  // ----- What else a collection promises -----------------------------------

  /** Every line below the offset has been taken into account. */
  ghost predicate LinesRead(s: State) {
    s.collector.Applying? ==>
      && s.collector.recent.offset <= |s.journal|
      && forall i :: 0 <= i < s.collector.recent.offset ==> (s.journal[i].key, s.journal[i].action) in s.collector.recent.uses
  }

  lemma {:induction false} StepKeepsLinesRead(s: State, e: Event)
    requires LinesRead(s) && Enabled(s, e)
    ensures LinesRead(Apply(s, e))
  {
    var t := Apply(s, e);
    if t.collector.Applying? {
      forall i | 0 <= i < t.collector.recent.offset
        ensures (t.journal[i].key, t.journal[i].action) in t.collector.recent.uses
      {
        if s.collector.Applying? && i < s.collector.recent.offset {
          assert t.journal[i] == s.journal[i];
        }
      }
    }
  }

  lemma {:induction false} RunKeepsLinesRead(states: seq<State>, events: seq<Event>, n: nat)
    requires IsRun(states, events) && n < |states| && states[0].collector.Idle?
    ensures LinesRead(states[n])
  {
    hide Enabled, Apply, LinesRead;
    if n > 0 {
      RunKeepsLinesRead(states, events, n - 1);
      StepKeepsLinesRead(states[n - 1], events[n - 1]);
    } else {
      IdleHasReadNothing(states[0]);
    }
  }

  lemma {:induction false} IdleHasReadNothing(s: State)
    requires s.collector.Idle?
    ensures LinesRead(s)
  {
  }

  /** The candidate is indexed, and a line of the current journal names it. */
  ghost predicate InUse(s: State, k: Key, c: Candidate, i: nat) {
    i < |s.journal| && s.journal[i] == Line(k, c.action) && Holds(s.index, k, c)
  }

  lemma {:induction false} StepKeepsUsed(s: State, e: Event, k: Key, c: Candidate, i: nat)
    requires LinesRead(s) && Enabled(s, e) && InUse(s, k, c, i)
    requires !e.Rotate? && !(e.PublishWrite? && e.key == k)
    ensures InUse(Apply(s, e), k, c, i)
  {
    if e.EvictBatch? {
      var uses := Refreshed(s.collector.recent, s.journal, s.index).uses;
      assert (s.journal[i].key, s.journal[i].action) in uses;
      EvictedHolds(s.index, e.paths, s.collector.units, s.collector.evicted, uses, k, c);
    }
  }

  /** In every run, a candidate whose use reached the journal stays until the
      journal is rotated for the next collection: no batch evicts it, and only a
      publication under its own key can push it out. */
  lemma {:induction false} UsedCandidatesStay(states: seq<State>, events: seq<Event>, n: nat, m: nat, k: Key, c: Candidate, i: nat)
    requires IsRun(states, events) && n <= m < |states| && states[0].collector.Idle?
    requires InUse(states[n], k, c, i)
    requires forall j :: n <= j < m ==> !events[j].Rotate? && !(events[j].PublishWrite? && events[j].key == k)
    ensures InUse(states[m], k, c, i)
  {
    hide Enabled, Apply, LinesRead, InUse;
    if n < m {
      UsedCandidatesStay(states, events, n, m - 1, k, c, i);
      RunKeepsLinesRead(states, events, m - 1);
      StepKeepsUsed(states[m - 1], events[m - 1], k, c, i);
    }
  }

  ghost predicate Started(s: State) {
    !s.collector.Idle? ==> s.collector.started <= s.now
  }

  /** Offered since the collection began, as far as the coarse file clock tells. */
  ghost predicate Offered(s: State, d: Digest) {
    !s.collector.Idle? && d in s.blobs && s.blobs[d] + COARSE_CLOCK_SLACK_MS >= s.collector.started
  }

  /** A blob re-offered during a collection stays until that collection ends. */
  lemma {:induction false} OfferedBlobsStay(s: State, e: Event, d: Digest)
    requires Started(s) && Enabled(s, e)
    ensures Started(Apply(s, e))
    ensures Offered(s, d) && !e.Stop? ==> Offered(Apply(s, e), d)
    ensures !s.collector.Idle? && (e == Touch(d) || (e.Upload? && e.digest == d && d in s.blobs)) ==> Offered(Apply(s, e), d)
  {
  }

  /** A collection about to apply its plan, with nobody else at work. */
  ghost predicate Undisturbed(s: State) {
    s.publishing.NotPublishing? && s.journal == [] && s.collector.Applying? && s.collector.recent == NOTHING_RECENT
  }

  /** What the batches so far have done of the plan. */
  ghost predicate DoneSoFar(s: State, t: State)
    requires s.collector.Applying?
  {
    var c := s.collector;
    && Undisturbed(t)
    && t.collector.(unevicted := c.unevicted, undeleted := c.undeleted) == c
    && t.collector.unevicted <= c.unevicted && t.collector.undeleted <= c.undeleted
    && (forall k, x :: Holds(t.index, k, x) <==> Holds(s.index, k, x) && !Evictable(c, c.unevicted - t.collector.unevicted, k, x))
    && t.blobs == DeleteBlobs(s.blobs, c.undeleted - t.collector.undeleted, c.started, NOTHING_RECENT)
  }

  ghost predicate Evictable(c: Collector, keys: set<Key>, k: Key, x: Candidate)
    requires c.Applying?
  {
    k in keys && (x.action, x.created) in Gone(c.units, c.evicted, k)
  }

  lemma {:induction false} NothingToRefresh(s: State)
    requires Undisturbed(s)
    ensures Refreshed(s.collector.recent, s.journal, s.index) == NOTHING_RECENT
  {
    assert NewKeys(NOTHING_RECENT, s.journal) == {} && NewUses(NOTHING_RECENT, s.journal) == {};
    assert RefsOf(s.index, {}) == {};
  }

  lemma {:induction false} EvictBatchDoes(s: State, t: State, paths: seq<Key>)
    requires s.collector.Applying? && DoneSoFar(s, t) && Enabled(t, EvictBatch(paths))
    ensures DoneSoFar(s, Apply(t, EvictBatch(paths)))
  {
    hide Refreshed, DeleteBlobs, EvictKeys;
    var c, u := s.collector, Apply(t, EvictBatch(paths));
    NothingToRefresh(t);
    var now := set k | k in paths;
    assert c.unevicted - u.collector.unevicted == c.unevicted - t.collector.unevicted + now;
    forall k, x
      ensures Holds(u.index, k, x) <==> Holds(s.index, k, x) && !Evictable(c, c.unevicted - u.collector.unevicted, k, x)
    {
      EvictedHolds(t.index, paths, c.units, c.evicted, {}, k, x);
    }
  }

  lemma {:induction false} DeleteBatchDoes(s: State, t: State, digests: set<Digest>)
    requires s.collector.Applying? && DoneSoFar(s, t) && Enabled(t, DeleteBatch(digests))
    ensures DoneSoFar(s, Apply(t, DeleteBatch(digests)))
  {
    hide Refreshed, Holds, Evictable;
    var c, u := s.collector, Apply(t, DeleteBatch(digests));
    NothingToRefresh(t);
    assert c.undeleted - u.collector.undeleted == c.undeleted - t.collector.undeleted + digests;
    assert u.blobs == DeleteBlobs(t.blobs, digests, c.started, NOTHING_RECENT);
  }

  lemma {:induction false} NothingDone(s: State)
    requires Undisturbed(s)
    ensures DoneSoFar(s, s)
  {
    assert s.blobs == DeleteBlobs(s.blobs, {}, s.collector.started, NOTHING_RECENT);
  }

  /** With nobody else at work the batches, however the plan is cut into them,
      do exactly what it says, and once they are through every planned candidate
      is gone, every other is there, and of the dead blobs only those remain that
      are as young as the collection itself. */
  lemma {:induction false} UndisturbedBatchesDoThePlan(states: seq<State>, events: seq<Event>)
    requires IsRun(states, events) && Undisturbed(states[0])
    requires forall i :: 0 <= i < |events| ==> events[i].EvictBatch? || events[i].DeleteBatch?
    ensures DoneSoFar(states[0], states[|events|])
    ensures var s, t := states[0], states[|events|];
      t.collector.unevicted == {} && t.collector.undeleted == {} ==>
        && (forall k, x :: Holds(t.index, k, x) <==> Holds(s.index, k, x) && !Evictable(s.collector, s.collector.unevicted, k, x))
        && forall d :: d in t.blobs <==>
             d in s.blobs && (d in s.collector.undeleted ==> s.blobs[d] + COARSE_CLOCK_SLACK_MS >= s.collector.started)
  {
    BatchesDo(states, events, |events|);
    var s, t := states[0], states[|events|];
    assert s.collector.unevicted - {} == s.collector.unevicted && s.collector.undeleted - {} == s.collector.undeleted;
  }

  lemma {:induction false} BatchesDo(states: seq<State>, events: seq<Event>, n: nat)
    requires IsRun(states, events) && Undisturbed(states[0]) && n <= |events|
    requires forall i :: 0 <= i < |events| ==> events[i].EvictBatch? || events[i].DeleteBatch?
    ensures DoneSoFar(states[0], states[n])
  {
    hide Enabled, Apply, DoneSoFar;
    if n == 0 {
      NothingDone(states[0]);
    } else {
      BatchesDo(states, events, n - 1);
      if events[n - 1].EvictBatch? {
        EvictBatchDoes(states[0], states[n - 1], events[n - 1].paths);
      } else {
        DeleteBatchDoes(states[0], states[n - 1], events[n - 1].digests);
      }
    }
  }
}
