/** Accepted work drains: with work left some task can move, and every move of a
    task lessens what is left, in the order uploads, records, releases. */
module RelayDrain {
  import opened Results
  import opened RelayOrder
  import opened Relay
  import opened RelayProofs
  import opened RelayProgress
  import opened Totals

  ghost predicate Healthy(c: Config, s: State) {
    Inv(s) && Awake(c, s) && Balanced(c, s)
  }

  lemma {:induction false} StartsHealthy(c: Config, s: State)
    requires Initial(c, s)
    ensures Awake(c, s) && Balanced(c, s)
  {
    assert Values(s.uploads, BytesOwed) == map[];
    assert Values(s.uploads, FilesOwed) == map[];
    assert Values(s.uploads, PermitsHeld) == map[];
  }

  lemma {:induction false} StepKeepsHealthy(c: Config, s: State, e: Event, t: State)
    requires Healthy(c, s) && Next(c, s, e, t)
    ensures Healthy(c, t)
  {
    StepKeepsInv(c, s, e, t);
    StepKeepsAwake(c, s, e, t);
    StepKeepsBalance(c, s, e, t);
  }

  /** In every reachable state the waiters are awake and the spool counters
      are exactly the accepted uploads not yet subtracted. */
  lemma {:induction false} RunStaysHealthy(c: Config, states: seq<State>, events: seq<Event>, n: nat)
    requires IsRun(c, states, events) && n < |states|
    ensures Healthy(c, states[n])
  {
    if n == 0 {
      RunKeepsInv(c, states, events, 0);
      StartsHealthy(c, states[0]);
    } else {
      RunStaysHealthy(c, states, events, n - 1);
      assert Next(c, states[n - 1], events[n - 1], states[n - 1 + 1]);
      StepKeepsHealthy(c, states[n - 1], events[n - 1], states[n]);
    }
  }

  // ----- Some task can always move -----------------------------------------

  predicate IsTask(e: Event) {
    IsUploadTask(e) || IsRecordTask(e) || IsReleaseTask(e)
  }

  predicate Drained(s: State) {
    s.uploads == map[] && s.records == map[] && s.releases == map[]
  }

  /** An upload can move, unless it waits for a permit that another holds, and
      then that one can. */
  lemma {:induction false} UploadCanMove(c: Config, s: State, q: nat) returns (e: Event)
    requires Balanced(c, s) && c.concurrency >= 1 && q in s.uploads
    ensures IsUploadTask(e) && UploadEnabled(s, e)
  {
    match s.uploads[q].pc
    case Queued =>
      if s.permits > 0 {
        e := UploadStart(q);
      } else {
        var p := PositiveTotal(Values(s.uploads, PermitsHeld));
        e := if s.uploads[p].pc.Asking? then UploadAsk(p, false) else UploadTry(p, false, Refusal);
      }
    case Asking => e := UploadAsk(q, false);
    case Sending(_) => e := UploadTry(q, false, Refusal);
    case Ended(_) => e := UploadMark(q);
    case Marked(_) =>
      SubtractionsNeverUnderflow(c, s, q);
      e := UploadDebitBytes(q);
    case BytesOff =>
      SubtractionsNeverUnderflow(c, s, q);
      e := UploadDebitFiles(q);
    case FilesOff => e := UploadRemove(q);
    case Removed => e := UploadTell(q);
  }

  lemma {:induction false} OpenMeansPresent(s: State)
    requires Inv(s)
    ensures s.blobOrder.open <= s.uploads.Keys && s.recordOrder.open <= s.records.Keys
  {
    forall q | q in s.blobOrder.open
      ensures q in s.uploads
    {
      assert UploadOk(s, q);
    }
    forall q | q in s.recordOrder.open
      ensures q in s.records
    {
      assert RecordOk(s, q);
    }
  }

  lemma {:induction false} NoUploadsMeansPassed(s: State)
    requires Inv(s) && s.uploads == map[]
    ensures s.blobOrder.open == {} && !UploadLeaving(s) && !Draining(s)
  {
    OpenMeansPresent(s);
  }

  lemma {:induction false} NoRecordsMeansPassed(s: State)
    requires Inv(s) && s.records == map[]
    ensures s.recordOrder.open == {} && !RecordLeaving(s)
  {
    OpenMeansPresent(s);
  }

  /** With no upload left, a record can move. */
  lemma {:induction false} RecordCanMove(c: Config, s: State, q: nat) returns (e: Event)
    requires Inv(s) && Awake(c, s) && s.uploads == map[] && q in s.records
    ensures IsRecordTask(e) && RecordEnabled(s, e)
  {
    NoUploadsMeansPassed(s);
    assert RecordWaitOk(s, q) && RecordOk(s, q);
    match s.records[q].pc
    case Holding(_) => e := RecordWait(q);
    case Posting(_) => e := RecordTry(q, false, Refusal);
    case Answered => e := RecordRemove(q);
    case Withdrawn => e := RecordTell(q);
  }

  /** With no upload or record left, a release can move. */
  lemma {:induction false} ReleaseCanMove(c: Config, s: State, id: nat) returns (e: Event)
    requires Inv(s) && Awake(c, s) && s.uploads == map[] && s.records == map[] && id in s.releases
    ensures IsReleaseTask(e) && ReleaseEnabled(s, e)
  {
    NoUploadsMeansPassed(s);
    NoRecordsMeansPassed(s);
    assert ReleaseWaitOk(s, id) && ReleaseOk(s, id);
    e := if s.releases[id].pc.Deleting? then ReleaseTry(id, false, Refusal) else ReleaseWait(id);
  }

  /** The relay never stalls: while work is left, a task can move. */
  lemma {:induction false} NeverStuck(c: Config, s: State) returns (e: Event)
    requires Healthy(c, s) && c.concurrency >= 1 && !Drained(s)
    ensures IsTask(e) && Enabled(s, e)
  {
    if s.uploads != map[] {
      var q :| q in s.uploads;
      e := UploadCanMove(c, s, q);
    } else if s.records != map[] {
      var q :| q in s.records;
      e := RecordCanMove(c, s, q);
    } else {
      var id :| id in s.releases;
      e := ReleaseCanMove(c, s, id);
    }
  }

  /** Nor does a wrapper waiting for spool room: once the uploads have drained
      every put can go on. */
  lemma {:induction false} PutsAreNotForgotten(c: Config, s: State, id: nat)
    requires Healthy(c, s) && s.uploads == map[] && id in s.puts
    ensures RequestEnabled(s, PutStep(id)) || RequestEnabled(s, PutCommit(id, true))
  {
    NoUploadsMeansPassed(s);
    assert PutWaitOk(c, s, id);
    assert Values(s.uploads, FilesOwed) == map[];
  }

  // ----- Every move brings the end closer ----------------------------------

  function AttemptsLeft(attempt: nat): nat {
    if attempt <= MAX_ATTEMPTS then MAX_ATTEMPTS - attempt else 0
  }

  function UploadSteps(u: Upload): nat {
    match u.pc
    case Queued => 12
    case Asking => 11
    case Sending(n) => 7 + AttemptsLeft(n)
    case Ended(_) => 6
    case Marked(_) => 5
    case BytesOff => 4
    case FilesOff => 3
    case Removed => 2
  }

  function RecordSteps(r: Record): nat {
    match r.pc
    case Holding(_) => 9
    case Posting(n) => 5 + AttemptsLeft(n)
    case Answered => 4
    case Withdrawn => 3
  }

  function ReleaseSteps(r: Release): nat {
    match r.pc
    case ForBlobs(_) => 20
    case ForRecords(_) => 10
    case Deleting(n) => 5 + AttemptsLeft(n)
  }

  /** How often a waiter can still go round at one version. */
  function Rounds(w: Wait, version: nat): nat {
    match w
    case Fresh => 4
    case Check(seen) => if seen == version then 1 else 3
    case Blocked(seen) => if seen == version then 0 else 2
    case Through => 0
  }

  function RecordRounds(r: Record, version: nat): nat {
    if r.pc.Holding? then Rounds(r.pc.wait, version) else 0
  }

  function ReleaseRounds(r: Release, blobVersion: nat, recordVersion: nat): nat {
    if r.pc.ForBlobs? then Rounds(r.pc.wait, blobVersion)
    else if r.pc.ForRecords? then Rounds(r.pc.wait, recordVersion)
    else 0
  }

  ghost function RecordWaits(s: State): map<nat, nat> {
    map q | q in s.records :: RecordRounds(s.records[q], s.blobOrder.version)
  }

  ghost function ReleaseWaits(s: State): map<nat, nat> {
    map id | id in s.releases :: ReleaseRounds(s.releases[id], s.blobOrder.version, s.recordOrder.version)
  }

  datatype Work = Work(uploads: nat, records: nat, recordWaits: nat, releases: nat, releaseWaits: nat) {
    predicate Less(than: Work) {
      uploads < than.uploads || (uploads == than.uploads && (
        records < than.records || (records == than.records && (
          recordWaits < than.recordWaits || (recordWaits == than.recordWaits && (
            releases < than.releases || (releases == than.releases && releaseWaits < than.releaseWaits)))))))
    }
  }

  ghost function WorkLeft(s: State): Work {
    Work(Over(s.uploads, UploadSteps), Over(s.records, RecordSteps), Total(RecordWaits(s)),
      Over(s.releases, ReleaseSteps), Total(ReleaseWaits(s)))
  }

  lemma {:induction false} UploadMoveLessens(s: State, t: State, q: nat)
    requires q in s.uploads && q in t.uploads && t.uploads == s.uploads[q := t.uploads[q]]
    requires UploadSteps(t.uploads[q]) < UploadSteps(s.uploads[q])
    ensures Over(t.uploads, UploadSteps) < Over(s.uploads, UploadSteps)
  {
    OverUpdate(s.uploads, q, t.uploads[q], UploadSteps);
  }

  lemma {:induction false} UploadTaskLessens(s: State, e: Event, t: State)
    requires IsUploadTask(e) && UploadEnabled(s, e) && UploadNext(s, e, t)
    ensures Over(t.uploads, UploadSteps) < Over(s.uploads, UploadSteps)
  {
    var q := e.q;
    if e.UploadTell? {
      OverUpdate(s.uploads, q, s.uploads[q], UploadSteps);
    } else {
      UploadMoveLessens(s, t, q);
    }
  }

  /** A record's wait goes one round. */
  lemma {:induction false} RecordRoundLessens(s: State, t: State, q: nat)
    requires q in s.records && s.records[q].pc.Holding? && CanWait(s.records[q].pc.wait, s.blobOrder)
    requires t == ApplyRecordWait(s, q) && t.records[q].pc.Holding?
    ensures Total(RecordWaits(t)) < Total(RecordWaits(s))
  {
    TotalUpdate(RecordWaits(s), q, RecordRounds(t.records[q], s.blobOrder.version));
    assert RecordWaits(t) == RecordWaits(s)[q := RecordRounds(t.records[q], s.blobOrder.version)];
  }

  lemma {:induction false} RecordTaskLessens(s: State, e: Event, t: State)
    requires IsRecordTask(e) && RecordEnabled(s, e) && RecordNext(s, e, t)
    ensures t.uploads == s.uploads
    ensures Over(t.records, RecordSteps) <= Over(s.records, RecordSteps)
    ensures Over(t.records, RecordSteps) == Over(s.records, RecordSteps) ==> Total(RecordWaits(t)) < Total(RecordWaits(s))
  {
    var q := e.q;
    if e.RecordTell? {
      assert t.records == s.records - {q};
      OverUpdate(s.records, q, s.records[q], RecordSteps);
    } else {
      assert t.records == s.records[q := t.records[q]];
      OverUpdate(s.records, q, t.records[q], RecordSteps);
      if e.RecordWait? && t.records[q].pc.Holding? {
        RecordRoundLessens(s, t, q);
      }
    }
  }

  lemma {:induction false} ReleaseRoundLessens(s: State, t: State, id: nat)
    requires id in s.releases && !s.releases[id].pc.Deleting?
    requires s.releases[id].pc.ForBlobs? ==> CanWait(s.releases[id].pc.wait, s.blobOrder)
    requires s.releases[id].pc.ForRecords? ==> CanWait(s.releases[id].pc.wait, s.recordOrder)
    requires t == ApplyReleaseWait(s, id) && !t.releases[id].pc.Deleting? && t.releases[id].pc.ForBlobs? == s.releases[id].pc.ForBlobs?
    ensures Total(ReleaseWaits(t)) < Total(ReleaseWaits(s))
  {
    var r := ReleaseRounds(t.releases[id], s.blobOrder.version, s.recordOrder.version);
    TotalUpdate(ReleaseWaits(s), id, r);
    assert ReleaseWaits(t) == ReleaseWaits(s)[id := r];
  }

  lemma {:induction false} ReleaseTaskLessens(s: State, e: Event, t: State)
    requires IsReleaseTask(e) && ReleaseEnabled(s, e) && ReleaseNext(s, e, t)
    ensures t.uploads == s.uploads && t.records == s.records && t.blobOrder == s.blobOrder
    ensures Over(t.releases, ReleaseSteps) <= Over(s.releases, ReleaseSteps)
    ensures Over(t.releases, ReleaseSteps) == Over(s.releases, ReleaseSteps) ==> Total(ReleaseWaits(t)) < Total(ReleaseWaits(s))
  {
    var id := e.id;
    if id !in t.releases {
      assert t.releases == s.releases - {id};
      OverUpdate(s.releases, id, s.releases[id], ReleaseSteps);
    } else {
      assert t.releases == s.releases[id := t.releases[id]];
      OverUpdate(s.releases, id, t.releases[id], ReleaseSteps);
      if e.ReleaseWait? && !t.releases[id].pc.Deleting? && t.releases[id].pc.ForBlobs? == s.releases[id].pc.ForBlobs? {
        ReleaseRoundLessens(s, t, id);
      }
    }
  }

  lemma {:induction false} TasksLessenWork(c: Config, s: State, e: Event, t: State)
    requires IsTask(e) && Next(c, s, e, t)
    ensures WorkLeft(t).Less(WorkLeft(s))
  {
    if IsUploadTask(e) {
      UploadTaskLessens(s, e, t);
    } else if IsRecordTask(e) {
      RecordTaskLessens(s, e, t);
    } else {
      ReleaseTaskLessens(s, e, t);
      assert RecordWaits(t) == RecordWaits(s);
    }
  }

  /** The steps that hand the relay more to do: a blob, a record or a release is
      accepted. */
  predicate Accepts(e: Event) {
    e.PutCommit? || e.AcceptRecord? || e.AcceptRelease?
  }

  /** The server and its clock, other runners, and requests on their way in
      leave the accepted work as it is. */
  lemma {:induction false} OthersKeepWork(c: Config, s: State, e: Event, t: State)
    requires !IsTask(e) && !Accepts(e) && Next(c, s, e, t)
    ensures WorkLeft(t) == WorkLeft(s) && (Drained(t) <==> Drained(s))
  {
    hide Over;
    assert t.uploads == s.uploads && t.records == s.records && t.releases == s.releases;
    assert t.blobOrder == s.blobOrder && t.recordOrder == s.recordOrder;
  }

  /** From step i on nothing more is accepted. */
  ghost predicate AcceptsNoMore(c: Config, run: nat -> State, steps: nat -> Event, i: nat) {
    forall k: nat :: i <= k ==> !Accepts(steps(k)) && Next(c, run(k), steps(k), run(k + 1))
  }

  /** While a task can move, some task moves sooner or later. */
  ghost predicate KeepsWorking(run: nat -> State, steps: nat -> Event) {
    forall k: nat :: (exists e :: IsTask(e) && Enabled(run(k), e)) ==> exists m: nat :: m >= k && IsTask(steps(m))
  }

  lemma {:induction false} SomeTaskComes(c: Config, run: nat -> State, steps: nat -> Event, i: nat) returns (m: nat)
    requires c.concurrency >= 1 && KeepsWorking(run, steps) && Healthy(c, run(i)) && !Drained(run(i))
    ensures m >= i && IsTask(steps(m))
  {
    var e := NeverStuck(c, run(i));
    m :| m >= i && IsTask(steps(m));
  }

  lemma {:induction false} WorkDrainsFrom(c: Config, run: nat -> State, steps: nat -> Event, i: nat, m: nat) returns (k: nat)
    requires c.concurrency >= 1 && AcceptsNoMore(c, run, steps, i) && KeepsWorking(run, steps)
    requires Healthy(c, run(i)) && m >= i && IsTask(steps(m))
    ensures k >= i && Drained(run(k))
    decreases WorkLeft(run(i)).uploads, WorkLeft(run(i)).records, WorkLeft(run(i)).recordWaits,
      WorkLeft(run(i)).releases, WorkLeft(run(i)).releaseWaits, m - i
  {
    hide Next, Enabled, Healthy, WorkLeft, IsTask, KeepsWorking, Drained, Accepts;
    assert Next(c, run(i), steps(i), run(i + 1)) && !Accepts(steps(i));
    StepKeepsHealthy(c, run(i), steps(i), run(i + 1));
    assert AcceptsNoMore(c, run, steps, i + 1);
    if Drained(run(i + 1)) {
      k := i + 1;
    } else if IsTask(steps(i)) {
      TasksLessenWork(c, run(i), steps(i), run(i + 1));
      var next := SomeTaskComes(c, run, steps, i + 1);
      k := WorkDrainsFrom(c, run, steps, i + 1, next);
    } else {
      OthersKeepWork(c, run(i), steps(i), run(i + 1));
      k := WorkDrainsFrom(c, run, steps, i + 1, m);
    }
  }

  /** Once nothing more is accepted all accepted work drains, whichever tasks
      move first, however their attempts end, and whatever the server, the clock
      and other runners do meanwhile. */
  lemma {:induction false} WorkDrains(c: Config, run: nat -> State, steps: nat -> Event, i: nat) returns (k: nat)
    requires c.concurrency >= 1 && AcceptsNoMore(c, run, steps, i) && KeepsWorking(run, steps)
    requires Healthy(c, run(i))
    ensures k >= i && Drained(run(k))
  {
    if Drained(run(i)) {
      k := i;
    } else {
      var m := SomeTaskComes(c, run, steps, i);
      k := WorkDrainsFrom(c, run, steps, i, m);
    }
  }
}
