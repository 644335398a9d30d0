/**
 The relay never stalls and its spool accounts never go wrong: a waiter is woken
 whenever its condition may have come true, and the counters equal what they count.
 */
module RelayProgress {
  import opened Results
  import opened RelayOrder
  import opened Relay
  import opened RelayProofs
  import opened Totals

  // ----- Nobody sleeps through a wake-up -----------------------------------

  /** An upload has left the open set and not yet told the waiters. */
  ghost predicate UploadLeaving(s: State) {
    exists q :: q in s.uploads && s.uploads[q].pc.Removed?
  }

  ghost predicate RecordLeaving(s: State) {
    exists q :: q in s.records && s.records[q].pc.Withdrawn?
  }

  /** An upload has given back spool room and not yet told the waiters. */
  ghost predicate Draining(s: State) {
    exists q :: q in s.uploads && (s.uploads[q].pc.BytesOff? || s.uploads[q].pc.FilesOff? || s.uploads[q].pc.Removed?)
  }

  /** A waiter that sleeps on the current version, though what it waits for has
      come true, is about to be told. */
  ghost predicate WaitOk(w: Wait, o: Order, horizon: nat, leaving: bool) {
    && (w.Check? || w.Blocked? ==> w.seen <= o.version)
    && (w.Blocked? && w.seen == o.version && o.Passed(horizon) ==> leaving)
  }

  ghost predicate PutOk(c: Config, s: State, p: Put) {
    && (p.pc.Room? || p.pc.Crowded? || p.pc.Full? ==> p.pc.seen <= s.blobOrder.version)
    && (p.pc.Crowded? && p.pc.seen == s.blobOrder.version && s.spooled < c.spoolLimit ==> Draining(s))
    && (p.pc.Full? && p.pc.seen == s.blobOrder.version && (s.spooled < c.spoolLimit || s.spoolFiles == 0) ==> Draining(s))
  }

  ghost predicate RecordWaitOk(s: State, q: nat)
    requires q in s.records
  {
    s.records[q].pc.Holding? ==> WaitOk(s.records[q].pc.wait, s.blobOrder, s.records[q].horizon, UploadLeaving(s))
  }

  ghost predicate ReleaseWaitOk(s: State, id: nat)
    requires id in s.releases
  {
    var r := s.releases[id];
    && (r.pc.ForBlobs? ==> WaitOk(r.pc.wait, s.blobOrder, r.blobHorizon, UploadLeaving(s)))
    && (r.pc.ForRecords? ==> WaitOk(r.pc.wait, s.recordOrder, r.recordHorizon, RecordLeaving(s)))
  }

  ghost predicate PutWaitOk(c: Config, s: State, id: nat)
    requires id in s.puts
  {
    PutOk(c, s, s.puts[id])
  }

  ghost predicate Awake(c: Config, s: State) {
    && (forall q :: q in s.records ==> RecordWaitOk(s, q))
    && (forall id :: id in s.releases ==> ReleaseWaitOk(s, id))
    && (forall id :: id in s.puts ==> PutWaitOk(c, s, id))
  }

  /** What can happen to an order and to the tasks leaving it, from the point
      of view of a waiter. */
  ghost predicate WakesProperly(o: Order, p: Order, leaving: bool, leavingAfter: bool, horizon: nat) {
    || o.version < p.version
    || (o.version == p.version && leavingAfter)
    || (o.version == p.version && leaving == leavingAfter && (p.Passed(horizon) ==> o.Passed(horizon)))
  }

  lemma {:induction false} WaitStays(w: Wait, o: Order, p: Order, leaving: bool, leavingAfter: bool, horizon: nat)
    requires WaitOk(w, o, horizon, leaving) && WakesProperly(o, p, leaving, leavingAfter, horizon)
    ensures WaitOk(w, p, horizon, leavingAfter)
  {
  }

  lemma {:induction false} WaitedIsOk(w: Wait, o: Order, horizon: nat, leaving: bool)
    requires WaitOk(w, o, horizon, leaving) && CanWait(w, o)
    ensures WaitOk(Waited(w, o, horizon), o, horizon, leaving)
  {
  }

  ghost predicate BlobSide(s: State, t: State) {
    || s.blobOrder.version < t.blobOrder.version
    || (s.blobOrder.version == t.blobOrder.version && UploadLeaving(t))
    || (s.blobOrder == t.blobOrder && UploadLeaving(s) == UploadLeaving(t))
    || (t.blobOrder == s.blobOrder.Begun() && UploadLeaving(s) == UploadLeaving(t))
  }

  ghost predicate RecordSide(s: State, t: State) {
    || s.recordOrder.version < t.recordOrder.version
    || (s.recordOrder.version == t.recordOrder.version && RecordLeaving(t))
    || (s.recordOrder == t.recordOrder && RecordLeaving(s) == RecordLeaving(t))
    || (t.recordOrder == s.recordOrder.Begun() && RecordLeaving(s) == RecordLeaving(t))
  }

  /** No room appears in the spool without an upload about to say so. */
  ghost predicate RoomSide(s: State, t: State) {
    || s.blobOrder.version < t.blobOrder.version
    || (s.blobOrder.version == t.blobOrder.version && Draining(t))
    || (s.blobOrder.version == t.blobOrder.version && (Draining(s) ==> Draining(t))
        && s.spooled <= t.spooled && s.spoolFiles <= t.spoolFiles)
  }

  lemma {:induction false} AwakeFrame(c: Config, s: State, t: State, rs: set<nat>, ls: set<nat>, ps: set<nat>)
    requires Inv(s) && Awake(c, s) && BlobSide(s, t) && RecordSide(s, t) && RoomSide(s, t)
    requires t.records.Keys <= s.records.Keys + rs && forall q :: q in t.records && q !in rs ==> t.records[q] == s.records[q]
    requires t.releases.Keys <= s.releases.Keys + ls && forall id :: id in t.releases && id !in ls ==> t.releases[id] == s.releases[id]
    requires t.puts.Keys <= s.puts.Keys + ps && forall id :: id in t.puts && id !in ps ==> t.puts[id] == s.puts[id]
    requires forall q :: q in rs && q in t.records ==> RecordWaitOk(t, q)
    requires forall id :: id in ls && id in t.releases ==> ReleaseWaitOk(t, id)
    requires forall id :: id in ps && id in t.puts ==> PutWaitOk(c, t, id)
    ensures Awake(c, t)
  {
    hide UploadOk, HandlerOk, GrantOk;
    forall q | q in t.records && q !in rs
      ensures RecordWaitOk(t, q)
    {
      assert RecordWaitOk(s, q) && RecordOk(s, q);
      if s.records[q].pc.Holding? {
        WaitStays(s.records[q].pc.wait, s.blobOrder, t.blobOrder, UploadLeaving(s), UploadLeaving(t), s.records[q].horizon);
      }
    }
    forall id | id in t.releases && id !in ls
      ensures ReleaseWaitOk(t, id)
    {
      var r := s.releases[id];
      assert ReleaseWaitOk(s, id) && ReleaseOk(s, id);
      if r.pc.ForBlobs? {
        WaitStays(r.pc.wait, s.blobOrder, t.blobOrder, UploadLeaving(s), UploadLeaving(t), r.blobHorizon);
      } else if r.pc.ForRecords? {
        WaitStays(r.pc.wait, s.recordOrder, t.recordOrder, RecordLeaving(s), RecordLeaving(t), r.recordHorizon);
      }
    }
    forall id | id in t.puts && id !in ps
      ensures PutWaitOk(c, t, id)
    {
      assert PutWaitOk(c, s, id);
    }
  }

  /** An upload that moves on, but neither leaves nor gives back room. */
  lemma {:induction false} UploadMovesQuietly(s: State, t: State, q: nat)
    requires q in t.uploads && t.uploads == s.uploads[q := t.uploads[q]]
    requires q in s.uploads ==> s.uploads[q].pc.Queued? || s.uploads[q].pc.Asking? || s.uploads[q].pc.Sending? || s.uploads[q].pc.Ended?
    requires !t.uploads[q].pc.BytesOff? && !t.uploads[q].pc.FilesOff? && !t.uploads[q].pc.Removed?
    ensures UploadLeaving(s) == UploadLeaving(t) && Draining(s) == Draining(t)
  {
    assert forall p :: p in s.uploads && p != q ==> p in t.uploads && t.uploads[p] == s.uploads[p];
    assert forall p :: p in t.uploads && p != q ==> p in s.uploads && t.uploads[p] == s.uploads[p];
  }

  lemma {:induction false} RecordMovesQuietly(s: State, t: State, q: nat)
    requires q in t.records && t.records == s.records[q := t.records[q]] && !t.records[q].pc.Withdrawn?
    requires q in s.records ==> !s.records[q].pc.Withdrawn?
    ensures RecordLeaving(s) == RecordLeaving(t)
  {
    assert forall p :: p in s.records && p != q ==> p in t.records && t.records[p] == s.records[p];
    assert forall p :: p in t.records && p != q ==> p in s.records && t.records[p] == s.records[p];
  }

  lemma {:induction false} PutKeepsAwake(c: Config, s: State, id: nat)
    requires Inv(s) && Awake(c, s) && id in s.puts && !s.puts[id].pc.Spooling?
    ensures Awake(c, ApplyPut(c, s, id))
  {
    var t := ApplyPut(c, s, id);
    assert PutWaitOk(c, s, id);
    assert UploadLeaving(s) == UploadLeaving(t) && RecordLeaving(s) == RecordLeaving(t) && Draining(s) == Draining(t);
    AwakeFrame(c, s, t, {}, {}, {id});
  }

  lemma {:induction false} CommitKeepsAwake(c: Config, s: State, id: nat, intact: bool)
    requires Inv(s) && Awake(c, s) && id in s.puts
    ensures Awake(c, ApplyCommit(s, id, intact))
  {
    var t := ApplyCommit(s, id, intact);
    assert RecordLeaving(s) == RecordLeaving(t);
    if intact && !IsKnown(s, s.puts[id].digest) {
      UploadMovesQuietly(s, t, s.blobOrder.next);
    } else {
      assert UploadLeaving(s) == UploadLeaving(t) && Draining(s) == Draining(t);
    }
    AwakeFrame(c, s, t, {}, {}, {});
  }

  lemma {:induction false} AcceptRecordKeepsAwake(c: Config, s: State, id: nat)
    requires Inv(s) && Awake(c, s)
    requires id in s.handlers && s.handlers[id].Publishing? && s.handlers[id].blobHorizon.Some?
    ensures Awake(c, ApplyAcceptRecord(s, id))
  {
    var t := ApplyAcceptRecord(s, id);
    assert UploadLeaving(s) == UploadLeaving(t) && Draining(s) == Draining(t);
    RecordMovesQuietly(s, t, s.recordOrder.next);
    AwakeFrame(c, s, t, {s.recordOrder.next}, {}, {});
  }

  lemma {:induction false} AcceptReleaseKeepsAwake(c: Config, s: State, id: nat)
    requires Inv(s) && Awake(c, s) && id in s.handlers && s.handlers[id].Releasing?
    requires s.handlers[id].blobHorizon.Some? && s.handlers[id].recordHorizon.Some?
    ensures Awake(c, ApplyAcceptRelease(s, id))
  {
    hide Inv;
    var t := ApplyAcceptRelease(s, id);
    assert UploadLeaving(s) == UploadLeaving(t) && Draining(s) == Draining(t);
    assert RecordLeaving(s) == RecordLeaving(t);
    AwakeFrame(c, s, t, {}, {id}, {});
  }

  /** Steps that touch no task, order or spool count. */
  lemma {:induction false} OthersKeepAwake(c: Config, s: State, t: State)
    requires Inv(s) && Awake(c, s)
    requires t.blobOrder == s.blobOrder && t.recordOrder == s.recordOrder && t.spooled == s.spooled && t.spoolFiles == s.spoolFiles
    requires t.uploads == s.uploads && t.records == s.records && t.releases == s.releases && t.puts == s.puts
    ensures Awake(c, t)
  {
    assert UploadLeaving(s) == UploadLeaving(t) && RecordLeaving(s) == RecordLeaving(t) && Draining(s) == Draining(t);
    AwakeFrame(c, s, t, {}, {}, {});
  }

  lemma {:induction false} ArrivalKeepsAwake(c: Config, s: State, id: nat, d: Digest, length: nat)
    requires Inv(s) && Awake(c, s) && id !in s.puts
    ensures Awake(c, s.(puts := s.puts[id := Put(d, length, Entering)]))
  {
    var t := s.(puts := s.puts[id := Put(d, length, Entering)]);
    assert UploadLeaving(s) == UploadLeaving(t) && RecordLeaving(s) == RecordLeaving(t) && Draining(s) == Draining(t);
    AwakeFrame(c, s, t, {}, {}, {id});
  }

  /** An upload moves on: quietly, or giving back room, or leaving. */
  lemma {:induction false} UploadKeepsAwake(c: Config, s: State, t: State, q: nat)
    requires Inv(s) && Awake(c, s)
    requires t.recordOrder == s.recordOrder && t.records == s.records && t.releases == s.releases && t.puts == s.puts
    requires q in s.uploads && q in t.uploads && t.uploads == s.uploads[q := t.uploads[q]]
    requires t.blobOrder.version == s.blobOrder.version
    requires (t.uploads[q].pc.Removed? && t.blobOrder == s.blobOrder.Left(q))
      || (t.blobOrder == s.blobOrder && !t.uploads[q].pc.Removed? && !s.uploads[q].pc.Removed?)
    requires t.uploads[q].pc.BytesOff? || t.uploads[q].pc.FilesOff? || t.uploads[q].pc.Removed?
      || (t.spooled == s.spooled && t.spoolFiles == s.spoolFiles
          && (s.uploads[q].pc.Queued? || s.uploads[q].pc.Asking? || s.uploads[q].pc.Sending? || s.uploads[q].pc.Ended?))
    ensures Awake(c, t)
  {
    hide Inv, Awake;
    assert RecordLeaving(s) == RecordLeaving(t);
    assert forall p :: p in s.uploads && p != q ==> p in t.uploads && t.uploads[p] == s.uploads[p];
    assert forall p :: p in t.uploads && p != q ==> p in s.uploads && t.uploads[p] == s.uploads[p];
    AwakeFrame(c, s, t, {}, {}, {});
  }

  lemma {:induction false} TellKeepsAwake(c: Config, s: State, q: nat)
    requires Inv(s) && Awake(c, s)
    ensures Awake(c, ApplyUploadTell(s, q))
  {
    assert RecordLeaving(s) == RecordLeaving(ApplyUploadTell(s, q));
    AwakeFrame(c, s, ApplyUploadTell(s, q), {}, {}, {});
  }

  /** A record moves on, still waits, or leaves. */
  lemma {:induction false} RecordKeepsAwake(c: Config, s: State, t: State, q: nat)
    requires Inv(s) && Awake(c, s)
    requires t.blobOrder == s.blobOrder && t.uploads == s.uploads && t.releases == s.releases && t.puts == s.puts
    requires t.spooled == s.spooled && t.spoolFiles == s.spoolFiles
    requires q in s.records && q in t.records && t.records == s.records[q := t.records[q]] && !s.records[q].pc.Withdrawn?
    requires t.recordOrder == if t.records[q].pc.Withdrawn? then s.recordOrder.Left(q) else s.recordOrder
    requires t.records[q].pc.Holding? ==> s.records[q].pc.Holding? && CanWait(s.records[q].pc.wait, s.blobOrder)
    requires t.records[q].pc.Holding? ==>
      t.records[q] == s.records[q].(pc := Holding(Waited(s.records[q].pc.wait, s.blobOrder, s.records[q].horizon)))
    ensures Awake(c, t)
  {
    assert UploadLeaving(s) == UploadLeaving(t) && Draining(s) == Draining(t);
    if !t.records[q].pc.Withdrawn? {
      RecordMovesQuietly(s, t, q);
    }
    assert RecordWaitOk(s, q);
    if t.records[q].pc.Holding? {
      WaitedIsOk(s.records[q].pc.wait, s.blobOrder, s.records[q].horizon, UploadLeaving(s));
    }
    AwakeFrame(c, s, t, {q}, {}, {});
  }

  lemma {:induction false} RecordTellKeepsAwake(c: Config, s: State, q: nat)
    requires Inv(s) && Awake(c, s)
    ensures Awake(c, ApplyRecordTell(s, q))
  {
    var t := ApplyRecordTell(s, q);
    assert UploadLeaving(s) == UploadLeaving(t) && Draining(s) == Draining(t);
    AwakeFrame(c, s, t, {}, {}, {});
  }

  lemma {:induction false} ReleaseWaitKeepsAwake(c: Config, s: State, id: nat)
    requires Inv(s) && Awake(c, s) && id in s.releases && !s.releases[id].pc.Deleting?
    requires s.releases[id].pc.ForBlobs? ==> CanWait(s.releases[id].pc.wait, s.blobOrder)
    requires s.releases[id].pc.ForRecords? ==> CanWait(s.releases[id].pc.wait, s.recordOrder)
    ensures Awake(c, ApplyReleaseWait(s, id))
  {
    hide Inv;
    var t, r := ApplyReleaseWait(s, id), s.releases[id];
    assert UploadLeaving(s) == UploadLeaving(t) && RecordLeaving(s) == RecordLeaving(t) && Draining(s) == Draining(t);
    assert ReleaseWaitOk(s, id);
    if r.pc.ForBlobs? {
      WaitedIsOk(r.pc.wait, s.blobOrder, r.blobHorizon, UploadLeaving(s));
    } else {
      WaitedIsOk(r.pc.wait, s.recordOrder, r.recordHorizon, RecordLeaving(s));
    }
    AwakeFrame(c, s, t, {}, {id}, {});
  }

  /** A release is answered, or tries again; it no longer waits. */
  lemma {:induction false} ReleaseTryKeepsAwake(c: Config, s: State, t: State, id: nat)
    requires Inv(s) && Awake(c, s)
    requires t.blobOrder == s.blobOrder && t.recordOrder == s.recordOrder && t.spooled == s.spooled && t.spoolFiles == s.spoolFiles
    requires t.uploads == s.uploads && t.records == s.records && t.puts == s.puts
    requires t.releases - {id} == s.releases - {id} && (id in t.releases ==> t.releases[id].pc.Deleting?)
    ensures Awake(c, t)
  {
    hide Inv, Awake;
    assert UploadLeaving(s) == UploadLeaving(t) && RecordLeaving(s) == RecordLeaving(t) && Draining(s) == Draining(t);
    forall x | x in t.releases && x != id
      ensures x in s.releases && t.releases[x] == s.releases[x]
    {
      assert x in t.releases - {id};
    }
    AwakeFrame(c, s, t, {}, {id}, {});
  }

  lemma {:induction false} UploadTaskKeepsAwake(c: Config, s: State, e: Event, t: State)
    requires Inv(s) && Awake(c, s) && IsUploadTask(e) && UploadEnabled(s, e) && UploadNext(s, e, t)
    ensures Awake(c, t)
  {
    if e.UploadTell? {
      TellKeepsAwake(c, s, e.q);
    } else {
      assert UploadOk(s, e.q);
      UploadKeepsAwake(c, s, t, e.q);
    }
  }

  lemma {:induction false} RecordTaskKeepsAwake(c: Config, s: State, e: Event, t: State)
    requires Inv(s) && Awake(c, s) && IsRecordTask(e) && RecordEnabled(s, e) && RecordNext(s, e, t)
    ensures Awake(c, t)
  {
    if e.RecordTell? {
      RecordTellKeepsAwake(c, s, e.q);
    } else {
      RecordKeepsAwake(c, s, t, e.q);
    }
  }

  lemma {:induction false} ReleaseTaskKeepsAwake(c: Config, s: State, e: Event, t: State)
    requires Inv(s) && Awake(c, s) && IsReleaseTask(e) && ReleaseEnabled(s, e) && ReleaseNext(s, e, t)
    ensures Awake(c, t)
  {
    hide Inv, Awake;
    match e
    case ReleaseWait(id) => ReleaseWaitKeepsAwake(c, s, id);
    case ReleaseTry(id, _, _) =>
      assert t.releases - {id} == s.releases - {id};
      ReleaseTryKeepsAwake(c, s, t, id);
  }

  lemma {:induction false} PutEventKeepsAwake(c: Config, s: State, e: Event, t: State)
    requires Inv(s) && Awake(c, s) && (e.PutArrives? || e.PutStep? || e.PutCommit?)
    requires RequestEnabled(s, e) && RequestNext(c, s, e, t)
    ensures Awake(c, t)
  {
    hide Inv, Awake;
    match e
    case PutArrives(id, d, length) => ArrivalKeepsAwake(c, s, id, d, length);
    case PutStep(id) => PutKeepsAwake(c, s, id);
    case PutCommit(id, intact) => CommitKeepsAwake(c, s, id, intact);
  }

  lemma {:induction false} RequestKeepsAwake(c: Config, s: State, e: Event, t: State)
    requires Inv(s) && Awake(c, s) && IsRequest(e) && RequestEnabled(s, e) && RequestNext(c, s, e, t)
    ensures Awake(c, t)
  {
    hide Inv, Awake;
    if e.PutArrives? || e.PutStep? || e.PutCommit? {
      PutEventKeepsAwake(c, s, e, t);
    } else if e.AcceptRecord? {
      AcceptRecordKeepsAwake(c, s, e.id);
    } else if e.AcceptRelease? {
      AcceptReleaseKeepsAwake(c, s, e.id);
    } else {
      OthersKeepAwake(c, s, t);
    }
  }

  lemma {:induction false} StepKeepsAwake(c: Config, s: State, e: Event, t: State)
    requires Inv(s) && Awake(c, s) && Next(c, s, e, t)
    ensures Awake(c, t)
  {
    hide Inv, Awake, UploadNext, RecordNext, ReleaseNext, RequestNext;
    if IsUploadTask(e) {
      UploadTaskKeepsAwake(c, s, e, t);
    } else if IsRecordTask(e) {
      RecordTaskKeepsAwake(c, s, e, t);
    } else if IsReleaseTask(e) {
      ReleaseTaskKeepsAwake(c, s, e, t);
    } else if IsServerStep(e) {
      OthersKeepAwake(c, s, t);
    } else {
      RequestKeepsAwake(c, s, e, t);
    }
  }

  // ----- The accounts ------------------------------------------------------

  function BytesOwed(u: Upload): nat {
    if u.pc.BytesOff? || u.pc.FilesOff? || u.pc.Removed? then 0 else u.length
  }

  function FilesOwed(u: Upload): nat {
    if u.pc.FilesOff? || u.pc.Removed? then 0 else 1
  }

  function PermitsHeld(u: Upload): nat {
    if u.pc.Asking? || u.pc.Sending? then 1 else 0
  }

  ghost function Values<V>(items: map<nat, V>, f: V -> nat): map<nat, nat> {
    map q | q in items :: f(items[q])
  }

  /** The sum of `f` over the items. */
  ghost function Over<V>(items: map<nat, V>, f: V -> nat): nat {
    Total(Values(items, f))
  }

  lemma {:induction false} OverUpdate<V>(items: map<nat, V>, q: nat, v: V, f: V -> nat)
    ensures Over(items[q := v], f) == Over(items - {q}, f) + f(v)
    ensures q in items ==> Over(items, f) == Over(items - {q}, f) + f(items[q])
    ensures q !in items ==> items - {q} == items
  {
    TotalUpdate(Values(items, f), q, f(v));
    assert Values(items[q := v], f) == Values(items, f)[q := f(v)];
    assert Values(items - {q}, f) == Values(items, f) - {q};
  }

  /** The spool counters are exactly the accepted uploads not yet subtracted,
      and every permit is free or held. */
  ghost predicate Balanced(c: Config, s: State) {
    && s.spooled == Over(s.uploads, BytesOwed)
    && s.spoolFiles == Over(s.uploads, FilesOwed)
    && s.permits + Over(s.uploads, PermitsHeld) == c.concurrency
  }

  /** One upload changes, and the counters with it. */
  lemma {:induction false} BalanceMoves(c: Config, s: State, t: State, q: nat, u: Upload)
    requires Balanced(c, s) && q in s.uploads && t.uploads == s.uploads[q := u]
    requires t.spooled + BytesOwed(s.uploads[q]) == s.spooled + BytesOwed(u)
    requires t.spoolFiles + FilesOwed(s.uploads[q]) == s.spoolFiles + FilesOwed(u)
    requires t.permits + PermitsHeld(u) == s.permits + PermitsHeld(s.uploads[q])
    ensures Balanced(c, t)
  {
    OverUpdate(s.uploads, q, u, BytesOwed);
    OverUpdate(s.uploads, q, u, FilesOwed);
    OverUpdate(s.uploads, q, u, PermitsHeld);
  }

  lemma {:induction false} BalanceEnds(c: Config, s: State, q: nat)
    requires Balanced(c, s) && q in s.uploads && s.uploads[q].pc.Removed?
    ensures Balanced(c, ApplyUploadTell(s, q))
  {
    OverUpdate(s.uploads, q, s.uploads[q], BytesOwed);
    OverUpdate(s.uploads, q, s.uploads[q], FilesOwed);
    OverUpdate(s.uploads, q, s.uploads[q], PermitsHeld);
  }

  lemma {:induction false} BalanceAdds(c: Config, s: State, t: State, q: nat, u: Upload)
    requires Balanced(c, s) && q !in s.uploads && t.uploads == s.uploads[q := u]
    requires t.spooled == s.spooled + BytesOwed(u) && t.spoolFiles == s.spoolFiles + FilesOwed(u)
    requires t.permits == s.permits && PermitsHeld(u) == 0
    ensures Balanced(c, t)
  {
    OverUpdate(s.uploads, q, u, BytesOwed);
    OverUpdate(s.uploads, q, u, FilesOwed);
    OverUpdate(s.uploads, q, u, PermitsHeld);
  }

  lemma {:induction false} BalanceSame(c: Config, s: State, t: State)
    requires Balanced(c, s)
    requires t.uploads == s.uploads && t.spooled == s.spooled && t.spoolFiles == s.spoolFiles && t.permits == s.permits
    ensures Balanced(c, t)
  {
  }

  lemma {:induction false} BalanceBegins(c: Config, s: State, t: State, id: nat, intact: bool)
    requires Base(s) && Balanced(c, s) && id in s.puts && t == ApplyCommit(s, id, intact)
    ensures Balanced(c, t)
  {
    if intact && !IsKnown(s, s.puts[id].digest) {
      BalanceAdds(c, s, t, |s.log|, Upload(s.puts[id].digest, s.puts[id].length, Queued));
    } else {
      BalanceSame(c, s, t);
    }
  }

  lemma {:induction false} UploadTaskKeepsBalance(c: Config, s: State, e: Event, t: State)
    requires Balanced(c, s) && IsUploadTask(e) && UploadEnabled(s, e) && UploadNext(s, e, t)
    ensures Balanced(c, t)
  {
    hide Over, Balanced;
    if e.UploadTell? {
      BalanceEnds(c, s, e.q);
    } else {
      BalanceMoves(c, s, t, e.q, t.uploads[e.q]);
    }
  }

  lemma {:induction false} RequestKeepsBalance(c: Config, s: State, e: Event, t: State)
    requires Base(s) && Balanced(c, s) && IsRequest(e) && RequestEnabled(s, e) && RequestNext(c, s, e, t)
    ensures Balanced(c, t)
  {
    hide Balanced;
    if e.PutCommit? {
      BalanceBegins(c, s, t, e.id, e.intact);
    } else {
      BalanceSame(c, s, t);
    }
  }

  lemma {:induction false} OthersKeepSpool(c: Config, s: State, e: Event, t: State)
    requires !IsUploadTask(e) && !IsRequest(e) && Next(c, s, e, t)
    ensures t.uploads == s.uploads && t.spooled == s.spooled && t.spoolFiles == s.spoolFiles && t.permits == s.permits
  {
    if IsRecordTask(e) {
      RecordsKeepSpool(s, e, t);
    }
  }

  lemma {:induction false} RecordsKeepSpool(s: State, e: Event, t: State)
    requires IsRecordTask(e) && RecordEnabled(s, e) && RecordNext(s, e, t)
    ensures t.uploads == s.uploads && t.spooled == s.spooled && t.spoolFiles == s.spoolFiles && t.permits == s.permits
  {
  }

  lemma {:induction false} StepKeepsBalance(c: Config, s: State, e: Event, t: State)
    requires Base(s) && Balanced(c, s) && Next(c, s, e, t)
    ensures Balanced(c, t)
  {
    hide Balanced, UploadEnabled, UploadNext, RequestEnabled, RequestNext;
    if IsUploadTask(e) {
      UploadTaskKeepsBalance(c, s, e, t);
    } else if IsRequest(e) {
      RequestKeepsBalance(c, s, e, t);
    } else {
      OthersKeepSpool(c, s, e, t);
      BalanceSame(c, s, t);
    }
  }

  /** Neither subtraction ever underflows: a task that gives back room finds
      at least its own share still counted. */
  lemma {:induction false} SubtractionsNeverUnderflow(c: Config, s: State, q: nat)
    requires Balanced(c, s) && q in s.uploads
    ensures s.uploads[q].pc.Marked? ==> s.uploads[q].length <= s.spooled
    ensures s.uploads[q].pc.Marked? || s.uploads[q].pc.BytesOff? ==> 1 <= s.spoolFiles
  {
    OverUpdate(s.uploads, q, s.uploads[q], BytesOwed);
    OverUpdate(s.uploads, q, s.uploads[q], FilesOwed);
  }
}
