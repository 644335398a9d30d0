/** What every run of the relay and the server keeps: the order of blobs, records
    and releases, and that a key never has two live owners. */
module RelayProofs {
  import opened Results
  import opened RelayOrder
  import opened Relay

  // ----- The invariant, one item at a time ---------------------------------

  /** An upload of the digest was begun before the horizon. */
  ghost predicate Logged(s: State, d: Digest, horizon: nat) {
    exists q :: 0 <= q < horizon && q < |s.log| && s.log[q] == d
  }

  /** The upload has an outcome, and success put the blob on the server. */
  ghost predicate BlobDone(s: State, q: nat) {
    q < |s.log| && q in s.uploaded && (s.uploaded[q] ==> s.log[q] in s.stored)
  }

  /** The record has an outcome, and success put it on the server. */
  ghost predicate RecordDone(s: State, q: nat) {
    q in s.answered && (s.answered[q] ==> q in s.landed)
  }

  ghost predicate UploadOk(s: State, q: nat)
    requires q < |s.log|
  {
    && (q in s.blobOrder.open <==> q in s.uploads && !s.uploads[q].pc.Removed?)
    && if q in s.uploads then
         var u := s.uploads[q];
         && u.digest == s.log[q]
         && (if u.pc.Queued? || u.pc.Asking? || u.pc.Sending? then q !in s.uploaded else BlobDone(s, q))
         && (u.pc.Ended? || u.pc.Marked? ==> s.uploaded[q] == u.pc.ok)
         && (u.pc.Sending? ==> 1 <= u.pc.attempt <= MAX_ATTEMPTS)
       else BlobDone(s, q)
  }

  ghost predicate RecordOk(s: State, q: nat) {
    && (q in s.recordOrder.open <==> q in s.records && !s.records[q].pc.Withdrawn?)
    && if q in s.records then
         var r := s.records[q];
         && r.horizon <= |s.log|
         && (forall d :: d in r.named ==> Logged(s, d, r.horizon))
         && (r.pc.Holding? || s.blobOrder.Passed(r.horizon))
         && (if r.pc.Holding? || r.pc.Posting? then q !in s.answered else RecordDone(s, q))
         && (r.pc.Posting? ==> 1 <= r.pc.attempt <= MAX_ATTEMPTS)
         && (r.pc.Holding? ==> !r.pc.wait.Through?)
       else RecordDone(s, q)
  }

  ghost predicate HandlerOk(s: State, id: nat)
    requires id in s.handlers
  {
    var h := s.handlers[id];
    && (h.blobHorizon.Some? ==> h.blobHorizon.value <= |s.log|)
    && (h.recordHorizon.Some? ==> h.recordHorizon.value <= s.recordOrder.next)
    && match h
       case Publishing(_, _, named, bh, _) =>
         forall d :: d in named ==> Logged(s, d, if bh.Some? then bh.value else |s.log|)
       case Releasing(t, _, rh) =>
         && t in s.grants && s.grants[t].requested
         && (rh.Some? ==> forall r :: r in s.grants[t].records ==> r < rh.value)
  }

  ghost predicate ReleaseOk(s: State, id: nat)
    requires id in s.releases
  {
    var r := s.releases[id];
    && r.token in s.grants && s.grants[r.token].requested
    && r.blobHorizon <= |s.log| && r.recordHorizon <= s.recordOrder.next
    && (forall q :: q in s.grants[r.token].records ==> q < r.recordHorizon)
    && (r.pc.ForBlobs? || s.blobOrder.Passed(r.blobHorizon))
    && (r.pc.Deleting? ==> s.recordOrder.Passed(r.recordHorizon) && 1 <= r.pc.attempt <= MAX_ATTEMPTS)
    && (r.pc.ForBlobs? || r.pc.ForRecords? ==> !r.pc.wait.Through?)
  }

  ghost predicate GrantOk(s: State, t: Token)
    requires t in s.grants
  {
    var g := s.grants[t];
    && g.key == t.key
    && (forall q :: q in g.records ==> q < s.recordOrder.next)
    && (g.released ==> g.requested && forall q :: q in g.records ==> RecordDone(s, q))
    && (g.expires > s.now && !g.released ==> g.key in s.leases && s.leases[g.key] == Lease(t, g.expires))
  }

  ghost predicate DigestOk(s: State, d: Digest) {
    d in s.acked || d in s.blobs ==> Logged(s, d, |s.log|)
  }

  ghost predicate Base(s: State) {
    && (forall q :: q in s.uploaded ==> q < |s.log|)
    && (forall q :: q in s.answered ==> q < s.recordOrder.next)
    && s.blobOrder.Valid() && s.recordOrder.Valid()
    && s.blobOrder.next == |s.log|
    && (forall q :: q in s.uploads ==> q < |s.log|)
    && (forall q :: q in s.records ==> q < s.recordOrder.next)
  }

  ghost predicate Inv(s: State) {
    && Base(s)
    && (forall q :: 0 <= q < |s.log| ==> UploadOk(s, q))
    && (forall q :: 0 <= q < s.recordOrder.next ==> RecordOk(s, q))
    && (forall id :: id in s.handlers ==> HandlerOk(s, id))
    && (forall id :: id in s.releases ==> ReleaseOk(s, id))
    && (forall t :: t in s.grants ==> GrantOk(s, t))
    && (forall d :: DigestOk(s, d))
  }

  // ----- What only grows ---------------------------------------------------

  ghost predicate OrderGrows(o: Order, p: Order) {
    o == p || (o.next <= p.next && forall q :: q in p.open && q < o.next ==> q in o.open)
  }

  ghost predicate Extends(m: map<nat, bool>, n: map<nat, bool>) {
    m == n || forall q :: q in m ==> q in n && n[q] == m[q]
  }

  ghost predicate Grows(s: State, t: State) {
    && s.log <= t.log
    && s.stored <= t.stored && s.landed <= t.landed
    && Extends(s.uploaded, t.uploaded) && Extends(s.answered, t.answered)
    && OrderGrows(s.blobOrder, t.blobOrder) && OrderGrows(s.recordOrder, t.recordOrder)
  }

  lemma {:induction false} LoggedStays(s: State, t: State, d: Digest, horizon: nat, later: nat)
    requires s.log <= t.log && horizon <= later && Logged(s, d, horizon)
    ensures Logged(t, d, later)
  {
    var q :| 0 <= q < horizon && q < |s.log| && s.log[q] == d;
    assert t.log[q] == d;
  }

  lemma {:induction false} DoneStays(s: State, t: State, q: nat)
    requires Grows(s, t)
    ensures BlobDone(s, q) ==> BlobDone(t, q)
    ensures RecordDone(s, q) ==> RecordDone(t, q)
  {
    if q < |s.log| {
      assert t.log[q] == s.log[q];
    }
  }

  lemma {:induction false} UploadStays(s: State, t: State, q: nat)
    requires Grows(s, t) && q < |s.log| && UploadOk(s, q)
    requires q in s.blobOrder.open <==> q in t.blobOrder.open
    requires q in s.uploads <==> q in t.uploads
    requires q in s.uploads ==> s.uploads[q] == t.uploads[q]
    requires q in t.uploaded <==> q in s.uploaded
    ensures UploadOk(t, q)
  {
    DoneStays(s, t, q);
    assert t.log[q] == s.log[q];
  }

  lemma {:induction false} RecordStays(s: State, t: State, q: nat)
    requires Grows(s, t) && RecordOk(s, q)
    requires q in s.recordOrder.open <==> q in t.recordOrder.open
    requires q in s.records <==> q in t.records
    requires q in s.records ==> s.records[q] == t.records[q]
    requires q in t.answered <==> q in s.answered
    requires s.blobOrder.next == |s.log|
    ensures RecordOk(t, q)
  {
    DoneStays(s, t, q);
    if q in s.records {
      var r := s.records[q];
      forall d | d in r.named
        ensures Logged(t, d, r.horizon)
      {
        LoggedStays(s, t, d, r.horizon, r.horizon);
      }
    }
  }

  lemma {:induction false} HandlerStays(s: State, t: State, id: nat)
    requires Grows(s, t) && id in s.handlers && id in t.handlers && s.handlers[id] == t.handlers[id]
    requires HandlerOk(s, id)
    requires forall k :: k in s.grants && s.grants[k].requested ==>
      k in t.grants && t.grants[k].requested && t.grants[k].records == s.grants[k].records
    ensures HandlerOk(t, id)
  {
    if s.handlers[id].Publishing? {
      var bh := s.handlers[id].blobHorizon;
      forall d | d in s.handlers[id].named
        ensures Logged(t, d, if bh.Some? then bh.value else |t.log|)
      {
        LoggedStays(s, t, d, if bh.Some? then bh.value else |s.log|, if bh.Some? then bh.value else |t.log|);
      }
    }
  }

  lemma {:induction false} ReleaseStays(s: State, t: State, id: nat)
    requires Grows(s, t) && id in s.releases && id in t.releases && s.releases[id] == t.releases[id]
    requires s.blobOrder.next == |s.log| && ReleaseOk(s, id)
    requires forall k :: k in s.grants && s.grants[k].requested ==>
      k in t.grants && t.grants[k].requested && t.grants[k].records == s.grants[k].records
    ensures ReleaseOk(t, id)
  {
  }

  lemma {:induction false} GrantStays(s: State, t: State, k: Token)
    requires Grows(s, t) && k in s.grants && k in t.grants && s.grants[k] == t.grants[k] && GrantOk(s, k)
    requires s.now <= t.now
    requires k.key in s.leases && s.leases[k.key].token == k && s.leases[k.key].expires > t.now ==>
      k.key in t.leases && t.leases[k.key] == s.leases[k.key]
    ensures GrantOk(t, k)
  {
    forall q | q in s.grants[k].records && RecordDone(s, q)
      ensures RecordDone(t, q)
    {
      DoneStays(s, t, q);
    }
  }

  // Items outside the given sets are as they were.

  ghost predicate UploadsSame(s: State, t: State, us: set<nat>) {
    && s.uploads - us == t.uploads - us
    && s.blobOrder.open - us == t.blobOrder.open - us
    && s.uploaded - us == t.uploaded - us
  }

  ghost predicate RecordsSame(s: State, t: State, rs: set<nat>) {
    && s.records - rs == t.records - rs
    && s.recordOrder.open - rs == t.recordOrder.open - rs
    && s.answered - rs == t.answered - rs
  }

  ghost predicate GrantsSame(s: State, t: State, ks: set<Token>) {
    && s.now <= t.now
    && s.grants - ks == t.grants - ks
    && (forall k :: k in ks && k in s.grants && s.grants[k].requested ==>
          k in t.grants && t.grants[k].requested && t.grants[k].records == s.grants[k].records)
    && (forall k :: k in s.leases && s.leases[k].expires > t.now && s.leases[k].token !in ks ==>
          k in t.leases && t.leases[k] == s.leases[k])
  }

  ghost predicate DigestsSame(s: State, t: State, ds: set<Digest>) {
    t.acked + t.blobs.Keys <= s.acked + s.blobs.Keys + ds
  }

  lemma {:induction false} UploadsFrame(s: State, t: State, us: set<nat>)
    requires Inv(s) && Grows(s, t) && UploadsSame(s, t, us)
    ensures forall q :: 0 <= q < |s.log| && q !in us ==> UploadOk(t, q)
  {
    forall q | 0 <= q < |s.log| && q !in us
      ensures UploadOk(t, q)
    {
      assert q in s.uploads <==> q in s.uploads - us;
      assert q in t.uploads <==> q in t.uploads - us;
      assert q in s.blobOrder.open <==> q in s.blobOrder.open - us;
      assert q in t.blobOrder.open <==> q in t.blobOrder.open - us;
      assert q in s.uploaded <==> q in s.uploaded - us;
      assert q in t.uploaded <==> q in t.uploaded - us;
      UploadStays(s, t, q);
    }
  }

  lemma {:induction false} RecordsFrame(s: State, t: State, rs: set<nat>)
    requires Inv(s) && Grows(s, t) && RecordsSame(s, t, rs)
    ensures forall q :: 0 <= q < s.recordOrder.next && q !in rs ==> RecordOk(t, q)
  {
    forall q | 0 <= q < s.recordOrder.next && q !in rs
      ensures RecordOk(t, q)
    {
      assert q in s.records <==> q in s.records - rs;
      assert q in t.records <==> q in t.records - rs;
      assert q in s.recordOrder.open <==> q in s.recordOrder.open - rs;
      assert q in t.recordOrder.open <==> q in t.recordOrder.open - rs;
      assert q in s.answered <==> q in s.answered - rs;
      assert q in t.answered <==> q in t.answered - rs;
      RecordStays(s, t, q);
    }
  }

  lemma {:induction false} RequestsStay(s: State, t: State, ks: set<Token>, k: Token)
    requires GrantsSame(s, t, ks) && k in s.grants && s.grants[k].requested
    ensures k in t.grants && t.grants[k].requested && t.grants[k].records == s.grants[k].records
  {
    if k !in ks {
      assert k in s.grants - ks;
      assert k in t.grants - ks;
    }
  }

  lemma {:induction false} RequestsFrame(s: State, t: State, hs: set<nat>, ls: set<nat>, ks: set<Token>)
    requires Inv(s) && Grows(s, t) && GrantsSame(s, t, ks)
    requires s.handlers - hs == t.handlers - hs && s.releases - ls == t.releases - ls
    ensures forall id :: id in t.handlers && id !in hs ==> HandlerOk(t, id)
    ensures forall id :: id in t.releases && id !in ls ==> ReleaseOk(t, id)
  {
    forall k | k in s.grants && s.grants[k].requested
      ensures k in t.grants && t.grants[k].requested && t.grants[k].records == s.grants[k].records
    {
      RequestsStay(s, t, ks, k);
    }
    forall id | id in t.handlers && id !in hs
      ensures HandlerOk(t, id)
    {
      assert id in t.handlers - hs;
      HandlerStays(s, t, id);
    }
    forall id | id in t.releases && id !in ls
      ensures ReleaseOk(t, id)
    {
      assert id in t.releases - ls;
      ReleaseStays(s, t, id);
    }
  }

  lemma {:induction false} GrantsFrame(s: State, t: State, ks: set<Token>)
    requires Inv(s) && Grows(s, t) && GrantsSame(s, t, ks)
    ensures forall k :: k in t.grants && k !in ks ==> GrantOk(t, k)
  {
    forall k | k in t.grants && k !in ks
      ensures GrantOk(t, k)
    {
      assert k in t.grants - ks;
      GrantStays(s, t, k);
    }
  }

  lemma {:induction false} DigestsFrame(s: State, t: State, ds: set<Digest>)
    requires Inv(s) && Grows(s, t) && DigestsSame(s, t, ds)
    ensures forall d :: d !in ds ==> DigestOk(t, d)
  {
    forall d | d !in ds
      ensures DigestOk(t, d)
    {
      assert DigestOk(s, d);
      assert d in t.acked || d in t.blobs ==> d in s.acked + s.blobs.Keys;
      if Logged(s, d, |s.log|) {
        LoggedStays(s, t, d, |s.log|, |t.log|);
      }
    }
  }

  /** Where a step only touches the items named, only they need checking. */
  lemma {:induction false} Frame(s: State, t: State, us: set<nat>, rs: set<nat>, hs: set<nat>, ls: set<nat>, ks: set<Token>, ds: set<Digest>)
    requires Inv(s) && Grows(s, t) && Base(t)
    requires UploadsSame(s, t, us) && RecordsSame(s, t, rs) && GrantsSame(s, t, ks) && DigestsSame(s, t, ds)
    requires s.handlers - hs == t.handlers - hs && s.releases - ls == t.releases - ls
    requires forall q :: 0 <= q < |t.log| && (q in us || q >= |s.log|) ==> UploadOk(t, q)
    requires forall q :: 0 <= q < t.recordOrder.next && (q in rs || q >= s.recordOrder.next) ==> RecordOk(t, q)
    requires forall id :: id in hs && id in t.handlers ==> HandlerOk(t, id)
    requires forall id :: id in ls && id in t.releases ==> ReleaseOk(t, id)
    requires forall k :: k in ks && k in t.grants ==> GrantOk(t, k)
    requires forall d :: d in ds ==> DigestOk(t, d)
    ensures Inv(t)
  {
    UploadsFrame(s, t, us);
    RecordsFrame(s, t, rs);
    RequestsFrame(s, t, hs, ls, ks);
    GrantsFrame(s, t, ks);
    DigestsFrame(s, t, ds);
  }

  // ----- Every step keeps it -----------------------------------------------

  lemma {:induction false} KnownKeepsInv(s: State, d: Digest)
    requires Inv(s) && IsKnown(s, d)
    ensures Inv(s.(acked := s.acked + {d}))
  {
    assert DigestOk(s, d);
    Frame(s, s.(acked := s.acked + {d}), {}, {}, {}, {}, {}, {d});
  }

  lemma {:induction false} PutsKeepInv(s: State, puts: map<nat, Put>)
    requires Inv(s)
    ensures Inv(s.(puts := puts))
  {
    Frame(s, s.(puts := puts), {}, {}, {}, {}, {}, {});
  }

  /** A new upload is begun, counted and acknowledged in one step. */
  lemma {:induction false} BeginUploadKeepsInv(s: State, id: nat)
    requires Inv(s) && id in s.puts && !IsKnown(s, s.puts[id].digest)
    ensures Inv(ApplyCommit(s, id, true))
  {
    hide RecordOk, HandlerOk, ReleaseOk, GrantOk, RecordDone, BlobDone;
    var t := ApplyCommit(s, id, true);
    var d, q := s.puts[id].digest, |s.log|;
    assert t.log[q] == d;
    assert t.uploads - {q} == s.uploads - {q};
    assert t.blobOrder.open - {q} == s.blobOrder.open - {q};
    assert Logged(t, d, |t.log|);
    Frame(s, t, {q}, {}, {}, {}, {}, {d});
  }

  lemma {:induction false} CommitKeepsInv(s: State, id: nat, intact: bool)
    requires Inv(s) && id in s.puts
    ensures Inv(ApplyCommit(s, id, intact))
  {
    var d := s.puts[id].digest;
    if !intact {
      PutsKeepInv(s, s.puts - {id});
    } else if IsKnown(s, d) {
      KnownKeepsInv(s, d);
      PutsKeepInv(s.(acked := s.acked + {d}), s.puts - {id});
    } else {
      BeginUploadKeepsInv(s, id);
    }
  }

  lemma {:induction false} RecordArrivesKeepsInv(s: State, id: nat, refs: set<Digest>, owner: Option<Token>)
    requires Inv(s)
    ensures Inv(s.(handlers := s.handlers[id := Publishing(refs, owner, s.acked, None, None)]))
  {
    var t := s.(handlers := s.handlers[id := Publishing(refs, owner, s.acked, None, None)]);
    forall d | d in s.acked
      ensures Logged(t, d, |t.log|)
    {
      assert DigestOk(s, d);
      LoggedStays(s, t, d, |s.log|, |t.log|);
    }
    assert HandlerOk(t, id);
    assert t.handlers - {id} == s.handlers - {id};
    Frame(s, t, {}, {}, {id}, {}, {}, {});
  }

  lemma {:induction false} ReadKeepsInv(s: State, id: nat)
    requires Inv(s) && id in s.handlers
    ensures Inv(ApplyRead(s, id))
  {
    var t := ApplyRead(s, id);
    var h := s.handlers[id];
    assert HandlerOk(s, id);
    if h.Publishing? {
      forall d | d in h.named
        ensures Logged(t, d, if h.blobHorizon.Some? then h.blobHorizon.value else |t.log|)
      {
        LoggedStays(s, t, d, if h.blobHorizon.Some? then h.blobHorizon.value else |s.log|,
                    if h.blobHorizon.Some? then h.blobHorizon.value else |t.log|);
      }
    } else {
      assert GrantOk(s, h.leased);
    }
    assert HandlerOk(t, id);
    assert t.handlers - {id} == s.handlers - {id};
    Frame(s, t, {}, {}, {id}, {}, {}, {});
  }

  lemma {:induction false} ReleaseArrivesKeepsInv(s: State, id: nat, k: Token)
    requires Inv(s) && k in s.grants
    ensures Inv(ApplyReleaseArrives(s, id, k))
  {
    hide UploadOk, RecordOk, ReleaseOk, DigestOk, RecordDone, BlobDone, Order.Passed, Order.Valid;
    var t := ApplyReleaseArrives(s, id, k);
    assert GrantOk(s, k);
    forall q | q in s.grants[k].records && RecordDone(s, q)
      ensures RecordDone(t, q)
    {
      DoneStays(s, t, q);
    }
    assert GrantOk(t, k);
    assert HandlerOk(t, id);
    assert t.handlers - {id} == s.handlers - {id};
    assert t.grants - {k} == s.grants - {k};
    Frame(s, t, {}, {}, {id}, {}, {k}, {});
  }

  /** A grant keeps its promises when its owner has one more record accepted. */
  lemma {:induction false} GrantGains(s: State, t: State, k: Token)
    requires Grows(s, t) && k in s.grants && GrantOk(s, k) && k in t.grants
    requires s.now == t.now && s.leases == t.leases
    requires t.grants[k] == s.grants[k]
      || (!s.grants[k].requested && !s.grants[k].released && s.recordOrder.next < t.recordOrder.next
          && t.grants[k] == s.grants[k].(records := s.grants[k].records + {s.recordOrder.next}))
    ensures GrantOk(t, k)
  {
    forall r | r in s.grants[k].records && RecordDone(s, r)
      ensures RecordDone(t, r)
    {
      DoneStays(s, t, r);
    }
  }

  lemma {:induction false} AcceptedRecordIsOk(s: State, id: nat)
    requires Inv(s) && id in s.handlers && s.handlers[id].Publishing?
    requires s.handlers[id].blobHorizon.Some? && s.handlers[id].recordHorizon.Some?
    ensures RecordOk(ApplyAcceptRecord(s, id), s.recordOrder.next)
  {
    var t, h := ApplyAcceptRecord(s, id), s.handlers[id];
    assert HandlerOk(s, id);
    forall d | d in h.named
      ensures Logged(t, d, h.blobHorizon.value)
    {
      LoggedStays(s, t, d, h.blobHorizon.value, h.blobHorizon.value);
    }
  }

  lemma {:induction false} AcceptedRecordGrants(s: State, id: nat, ks: set<Token>)
    requires Inv(s) && id in s.handlers && s.handlers[id].Publishing?
    requires s.handlers[id].blobHorizon.Some? && s.handlers[id].recordHorizon.Some?
    requires ks == if s.handlers[id].token.Some? then {s.handlers[id].token.value} else {}
    ensures var t := ApplyAcceptRecord(s, id);
      GrantsSame(s, t, ks) && forall k :: k in ks && k in t.grants ==> GrantOk(t, k)
  {
    hide UploadOk, RecordOk, HandlerOk, ReleaseOk, DigestOk, RecordDone, BlobDone;
    var t, h := ApplyAcceptRecord(s, id), s.handlers[id];
    if h.token.Some? && h.token.value in s.grants {
      GrantGains(s, t, h.token.value);
    }
    assert t.grants - ks == s.grants - ks;
  }

  lemma {:induction false} AcceptRecordKeepsInv(s: State, id: nat)
    requires Inv(s) && id in s.handlers && s.handlers[id].Publishing?
    requires s.handlers[id].blobHorizon.Some? && s.handlers[id].recordHorizon.Some?
    ensures Inv(ApplyAcceptRecord(s, id))
  {
    hide UploadOk, HandlerOk, ReleaseOk, GrantOk, DigestOk, RecordDone, BlobDone;
    var t, h, q := ApplyAcceptRecord(s, id), s.handlers[id], s.recordOrder.next;
    var ks := if h.token.Some? then {h.token.value} else {};
    AcceptedRecordIsOk(s, id);
    AcceptedRecordGrants(s, id, ks);
    assert HandlerOk(s, id);
    assert t.records - {q} == s.records - {q};
    assert t.recordOrder.open - {q} == s.recordOrder.open - {q};
    assert t.handlers - {id} == s.handlers - {id};
    Frame(s, t, {}, {q}, {id}, {}, ks, {});
  }

  lemma {:induction false} AcceptReleaseKeepsInv(s: State, id: nat)
    requires Inv(s) && id in s.handlers && s.handlers[id].Releasing?
    requires s.handlers[id].blobHorizon.Some? && s.handlers[id].recordHorizon.Some?
    ensures Inv(ApplyAcceptRelease(s, id))
  {
    hide UploadOk, RecordOk, GrantOk, DigestOk, RecordDone, BlobDone;
    var t := ApplyAcceptRelease(s, id);
    assert HandlerOk(s, id);
    assert ReleaseOk(t, id);
    assert t.handlers - {id} == s.handlers - {id};
    assert t.releases - {id} == s.releases - {id};
    Frame(s, t, {}, {}, {id}, {id}, {}, {});
  }

  /** One upload moves on; nothing else of the relay does. */
  lemma {:induction false} UploadKeepsInv(s: State, t: State, q: nat)
    requires Inv(s) && q in s.uploads && q in t.uploads && q < |t.log| && UploadOk(t, q)
    requires t == s.(uploads := t.uploads, permits := t.permits, spooled := t.spooled, spoolFiles := t.spoolFiles,
                     uploaded := t.uploaded, stored := t.stored)
    requires t.uploads == s.uploads[q := t.uploads[q]]
    requires s.stored <= t.stored
    requires t.uploaded == s.uploaded || (q !in s.uploaded && q in t.uploaded && t.uploaded == s.uploaded[q := t.uploaded[q]])
    ensures Inv(t)
  {
    assert t.uploads - {q} == s.uploads - {q};
    assert t.uploaded - {q} == s.uploaded - {q};
    Frame(s, t, {q}, {}, {}, {}, {}, {});
  }

  lemma {:induction false} UploadAskKeepsInv(s: State, q: nat, present: bool)
    requires Inv(s) && q in s.uploads && s.uploads[q].pc.Asking? && (present ==> s.uploads[q].digest in s.stored)
    ensures Inv(ApplyUploadAsk(s, q, present))
  {
    assert UploadOk(s, q);
    UploadKeepsInv(s, ApplyUploadAsk(s, q, present), q);
  }

  lemma {:induction false} UploadTryKeepsInv(s: State, q: nat, arrives: bool, reply: Reply)
    requires Inv(s) && q in s.uploads && s.uploads[q].pc.Sending? && Honest(arrives, reply)
    requires reply.Retry? ==> s.uploads[q].pc.attempt < MAX_ATTEMPTS
    ensures Inv(ApplyUploadTry(s, q, arrives, reply))
  {
    assert UploadOk(s, q);
    UploadKeepsInv(s, ApplyUploadTry(s, q, arrives, reply), q);
  }

  lemma {:induction false} UploadMarkKeepsInv(s: State, q: nat)
    requires Inv(s) && q in s.uploads && s.uploads[q].pc.Ended?
    ensures Inv(ApplyUploadMark(s, q))
  {
    hide RecordOk, HandlerOk, ReleaseOk, GrantOk, RecordDone;
    var t := ApplyUploadMark(s, q);
    var d := s.uploads[q].digest;
    assert UploadOk(s, q);
    assert Logged(t, d, |t.log|);
    assert t.uploads - {q} == s.uploads - {q};
    Frame(s, t, {q}, {}, {}, {}, {}, {d});
  }

  lemma {:induction false} UploadRemoveKeepsInv(s: State, q: nat)
    requires Inv(s) && q in s.uploads && s.uploads[q].pc.FilesOff?
    ensures Inv(ApplyUploadRemove(s, q))
  {
    hide RecordOk, HandlerOk, GrantOk, DigestOk, RecordDone;
    var t := ApplyUploadRemove(s, q);
    assert UploadOk(s, q);
    assert t.uploads - {q} == s.uploads - {q};
    assert t.blobOrder.open - {q} == s.blobOrder.open - {q};
    Frame(s, t, {q}, {}, {}, {}, {}, {});
  }

  lemma {:induction false} UploadTellKeepsInv(s: State, q: nat)
    requires Inv(s) && q in s.uploads && s.uploads[q].pc.Removed?
    ensures Inv(ApplyUploadTell(s, q))
  {
    hide RecordOk, HandlerOk, GrantOk, DigestOk, RecordDone;
    var t := ApplyUploadTell(s, q);
    assert UploadOk(s, q);
    assert t.uploads - {q} == s.uploads - {q};
    Frame(s, t, {q}, {}, {}, {}, {}, {});
  }

  /** One record moves on; nothing else does. */
  lemma {:induction false} RecordKeepsInv(s: State, t: State, q: nat)
    requires Inv(s) && q in s.records && q in t.records && q < s.recordOrder.next && RecordOk(t, q)
    requires t == s.(records := t.records, answered := t.answered, landed := t.landed, recordOrder := t.recordOrder)
    requires t.records == s.records[q := t.records[q]]
    requires s.landed <= t.landed
    requires t.recordOrder == s.recordOrder || t.recordOrder == s.recordOrder.Left(q)
    requires t.answered == s.answered || (q !in s.answered && q in t.answered && t.answered == s.answered[q := t.answered[q]])
    ensures Inv(t)
  {
    hide UploadOk;
    assert t.records - {q} == s.records - {q};
    assert t.answered - {q} == s.answered - {q};
    assert t.recordOrder.open - {q} == s.recordOrder.open - {q};
    Frame(s, t, {}, {q}, {}, {}, {}, {});
  }

  lemma {:induction false} NamedStay(s: State, t: State, q: nat)
    requires Inv(s) && q in s.records && t.log == s.log
    ensures forall d :: d in s.records[q].named ==> Logged(t, d, s.records[q].horizon)
  {
    assert RecordOk(s, q);
    forall d | d in s.records[q].named
      ensures Logged(t, d, s.records[q].horizon)
    {
      LoggedStays(s, t, d, s.records[q].horizon, s.records[q].horizon);
    }
  }

  lemma {:induction false} RecordWaitKeepsInv(s: State, q: nat)
    requires Inv(s) && q in s.records && s.records[q].pc.Holding? && CanWait(s.records[q].pc.wait, s.blobOrder)
    ensures Inv(ApplyRecordWait(s, q))
  {
    assert RecordOk(s, q);
    NamedStay(s, ApplyRecordWait(s, q), q);
    RecordKeepsInv(s, ApplyRecordWait(s, q), q);
  }

  lemma {:induction false} RecordTryKeepsInv(s: State, q: nat, arrives: bool, reply: Reply)
    requires Inv(s) && q in s.records && s.records[q].pc.Posting? && Honest(arrives, reply)
    requires reply.Retry? ==> s.records[q].pc.attempt < MAX_ATTEMPTS
    ensures Inv(ApplyRecordTry(s, q, arrives, reply))
  {
    assert RecordOk(s, q);
    NamedStay(s, ApplyRecordTry(s, q, arrives, reply), q);
    RecordKeepsInv(s, ApplyRecordTry(s, q, arrives, reply), q);
  }

  lemma {:induction false} RecordRemoveKeepsInv(s: State, q: nat)
    requires Inv(s) && q in s.records && s.records[q].pc.Answered?
    ensures Inv(ApplyRecordRemove(s, q))
  {
    assert RecordOk(s, q);
    NamedStay(s, ApplyRecordRemove(s, q), q);
    RecordKeepsInv(s, ApplyRecordRemove(s, q), q);
  }

  lemma {:induction false} RecordTellKeepsInv(s: State, q: nat)
    requires Inv(s) && q in s.records && s.records[q].pc.Withdrawn?
    ensures Inv(ApplyRecordTell(s, q))
  {
    hide UploadOk, HandlerOk, GrantOk, DigestOk, BlobDone;
    var t := ApplyRecordTell(s, q);
    assert RecordOk(s, q);
    assert t.records - {q} == s.records - {q};
    Frame(s, t, {}, {q}, {}, {}, {}, {});
  }

  /** Once the records below a horizon have passed, each has an outcome. */
  lemma {:induction false} PassedMeansDone(s: State, horizon: nat, q: nat)
    requires Inv(s) && s.recordOrder.Passed(horizon) && q < horizon <= s.recordOrder.next
    ensures RecordDone(s, q)
  {
    assert RecordOk(s, q);
  }

  /** A release reaches the server: its owner's records are all done. */
  lemma {:induction false} ArrivedKeepsInv(s: State, k: Token, arrives: bool)
    requires Inv(s) && k in s.grants
    requires forall q :: q in s.grants[k].records ==> RecordDone(s, q)
    ensures Inv(MaybeArrived(s, k, arrives))
  {
    var t := MaybeArrived(s, k, arrives);
    assert GrantOk(s, k);
    forall q | q in s.grants[k].records
      ensures RecordDone(t, q)
    {
      DoneStays(s, t, q);
    }
    assert t.grants - {k} == s.grants - {k};
    GrantKeepsInv(s, t, k);
  }

  lemma {:induction false} ReleaseMayArrive(s: State, id: nat, arrives: bool)
    requires Inv(s) && id in s.releases && s.releases[id].pc.Deleting?
    ensures Inv(MaybeArrived(s, s.releases[id].token, arrives))
  {
    var k := s.releases[id].token;
    assert ReleaseOk(s, id);
    forall q | q in s.grants[k].records
      ensures RecordDone(s, q)
    {
      PassedMeansDone(s, s.releases[id].recordHorizon, q);
    }
    ArrivedKeepsInv(s, k, arrives);
  }

  /** One release moves on or ends; nothing else does. */
  lemma {:induction false} ReleaseKeepsInv(s: State, t: State, id: nat)
    requires Inv(s) && t == s.(releases := t.releases)
    requires t.releases - {id} == s.releases - {id}
    requires id in t.releases ==> ReleaseOk(t, id)
    ensures Inv(t)
  {
    Frame(s, t, {}, {}, {}, {id}, {}, {});
  }

  lemma {:induction false} ReleaseWaitKeepsInv(s: State, id: nat)
    requires Inv(s) && id in s.releases && !s.releases[id].pc.Deleting?
    requires s.releases[id].pc.ForBlobs? ==> CanWait(s.releases[id].pc.wait, s.blobOrder)
    requires s.releases[id].pc.ForRecords? ==> CanWait(s.releases[id].pc.wait, s.recordOrder)
    ensures Inv(ApplyReleaseWait(s, id))
  {
    hide UploadOk, RecordOk, HandlerOk, GrantOk, DigestOk, RecordDone, BlobDone;
    var t := ApplyReleaseWait(s, id);
    assert ReleaseOk(s, id);
    assert t.releases - {id} == s.releases - {id};
    ReleaseKeepsInv(s, t, id);
  }

  lemma {:induction false} ReleaseRepliedKeepsInv(s: State, id: nat, reply: Reply)
    requires Inv(s) && id in s.releases && s.releases[id].pc.Deleting?
    requires reply.Retry? ==> s.releases[id].pc.attempt < MAX_ATTEMPTS
    ensures Inv(ReleaseReplied(s, id, reply))
  {
    var t := ReleaseReplied(s, id, reply);
    assert ReleaseOk(s, id);
    assert t.releases - {id} == s.releases - {id};
    ReleaseKeepsInv(s, t, id);
  }

  lemma {:induction false} AcquireChangesOneGrant(s: State, client: string, k: Key, ttl: nat)
    requires Inv(s) && Token(client, k, s.now) !in s.grants
    ensures var t, token := ApplyAcquire(s, client, k, ttl), Token(client, k, s.now);
      GrantsSame(s, t, {token}) && (token in t.grants ==> GrantOk(t, token))
  {
    var t, token := ApplyAcquire(s, client, k, ttl), Token(client, k, s.now);
    assert t.grants - {token} == s.grants - {token};
  }

  lemma {:induction false} AcquireKeepsInv(s: State, client: string, k: Key, ttl: nat)
    requires Inv(s) && Token(client, k, s.now) !in s.grants
    ensures Inv(ApplyAcquire(s, client, k, ttl))
  {
    AcquireChangesOneGrant(s, client, k, ttl);
    GrantKeepsInv(s, ApplyAcquire(s, client, k, ttl), Token(client, k, s.now));
  }

  /** One lease changes hands; nothing else changes. */
  lemma {:induction false} GrantKeepsInv(s: State, t: State, token: Token)
    requires Inv(s) && t == s.(leases := t.leases, grants := t.grants)
    requires GrantsSame(s, t, {token}) && (token in t.grants ==> GrantOk(t, token))
    ensures Inv(t)
  {
    Frame(s, t, {}, {}, {}, {}, {token}, {});
  }

  lemma {:induction false} ServerKeepsInv(s: State, t: State)
    requires Inv(s)
    requires t == s.(now := t.now, stored := t.stored) && s.now <= t.now && s.stored <= t.stored
    ensures Inv(t)
  {
    Frame(s, t, {}, {}, {}, {}, {}, {});
  }

  lemma {:induction false} RequestKeepsInv(c: Config, s: State, e: Event, t: State)
    requires Inv(s) && IsRequest(e) && RequestEnabled(s, e) && RequestNext(c, s, e, t)
    ensures Inv(t)
  {
    hide Inv, RecordOk, DigestOk;
    match e
    case Known(d) => KnownKeepsInv(s, d);
    case PutArrives(_, _, _) => PutsKeepInv(s, t.puts);
    case PutStep(_) => PutsKeepInv(s, t.puts);
    case PutCommit(id, intact) => CommitKeepsInv(s, id, intact);
    case RecordArrives(id, refs, owner) => RecordArrivesKeepsInv(s, id, refs, owner);
    case ReleaseArrives(id, k) => ReleaseArrivesKeepsInv(s, id, k);
    case ReadBlobHorizon(id) => ReadKeepsInv(s, id);
    case ReadRecordHorizon(id) => ReadKeepsInv(s, id);
    case AcceptRecord(id) => AcceptRecordKeepsInv(s, id);
    case AcceptRelease(id) => AcceptReleaseKeepsInv(s, id);
  }

  /** Taking a permit, or giving back spool room, is the upload's own business. */
  lemma {:induction false} UploadMovesKeepsInv(s: State, e: Event, t: State)
    requires Inv(s) && IsUploadTask(e) && UploadEnabled(s, e) && UploadNext(s, e, t)
    requires e.UploadStart? || e.UploadDebitBytes? || e.UploadDebitFiles?
    ensures Inv(t)
  {
    assert UploadOk(s, e.q);
    UploadKeepsInv(s, t, e.q);
  }

  lemma {:induction false} UploadEndKeepsInv(s: State, e: Event, t: State)
    requires Inv(s) && (e.UploadMark? || e.UploadRemove? || e.UploadTell?) && UploadEnabled(s, e) && UploadNext(s, e, t)
    ensures Inv(t)
  {
    hide Inv, UploadOk, RecordOk, HandlerOk, ReleaseOk, GrantOk, DigestOk, RecordDone, BlobDone, Base;
    match e
    case UploadMark(q) => UploadMarkKeepsInv(s, q);
    case UploadRemove(q) => UploadRemoveKeepsInv(s, q);
    case UploadTell(q) => UploadTellKeepsInv(s, q);
  }

  lemma {:induction false} UploadTaskKeepsInv(s: State, e: Event, t: State)
    requires Inv(s) && IsUploadTask(e) && UploadEnabled(s, e) && UploadNext(s, e, t)
    ensures Inv(t)
  {
    hide Inv, UploadOk, RecordOk, HandlerOk, ReleaseOk, GrantOk, DigestOk, RecordDone, BlobDone, Base;
    if e.UploadAsk? {
      UploadAskKeepsInv(s, e.q, e.present);
    } else if e.UploadTry? {
      UploadTryKeepsInv(s, e.q, e.arrives, e.reply);
    } else if e.UploadMark? || e.UploadRemove? || e.UploadTell? {
      UploadEndKeepsInv(s, e, t);
    } else {
      UploadMovesKeepsInv(s, e, t);
    }
  }

  lemma {:induction false} RecordTaskKeepsInv(s: State, e: Event, t: State)
    requires Inv(s) && IsRecordTask(e) && RecordEnabled(s, e) && RecordNext(s, e, t)
    ensures Inv(t)
  {
    hide Inv, UploadOk, RecordOk, HandlerOk, ReleaseOk, GrantOk, DigestOk, RecordDone, BlobDone, Base;
    match e
    case RecordWait(q) => RecordWaitKeepsInv(s, q);
    case RecordTry(q, arrives, reply) => RecordTryKeepsInv(s, q, arrives, reply);
    case RecordRemove(q) => RecordRemoveKeepsInv(s, q);
    case RecordTell(q) => RecordTellKeepsInv(s, q);
  }

  lemma {:induction false} ReleaseTryKeepsInv(s: State, id: nat, arrives: bool, reply: Reply)
    requires Inv(s) && id in s.releases && s.releases[id].pc.Deleting?
    requires reply.Retry? ==> s.releases[id].pc.attempt < MAX_ATTEMPTS
    ensures Inv(ApplyReleaseTry(s, id, arrives, reply))
  {
    hide Inv;
    ReleaseMayArrive(s, id, arrives);
    ReleaseRepliedKeepsInv(MaybeArrived(s, s.releases[id].token, arrives), id, reply);
  }

  lemma {:induction false} ReleaseTaskKeepsInv(s: State, e: Event, t: State)
    requires Inv(s) && IsReleaseTask(e) && ReleaseEnabled(s, e) && ReleaseNext(s, e, t)
    ensures Inv(t)
  {
    hide Inv;
    match e
    case ReleaseWait(id) => ReleaseWaitKeepsInv(s, id);
    case ReleaseTry(id, arrives, reply) => ReleaseTryKeepsInv(s, id, arrives, reply);
  }

  lemma {:induction false} ServerStepKeepsInv(s: State, e: Event, t: State)
    requires Inv(s) && IsServerStep(e) && ServerEnabled(s, e) && ServerNext(s, e, t)
    ensures Inv(t)
  {
    if e.Acquire? {
      AcquireKeepsInv(s, e.client, e.key, e.ttl);
    } else if e.DirectRelease? {
      ArrivedKeepsInv(s, e.token, true);
    } else {
      ServerKeepsInv(s, t);
    }
  }

  lemma {:induction false} StepKeepsInv(c: Config, s: State, e: Event, t: State)
    requires Inv(s) && Next(c, s, e, t)
    ensures Inv(t)
  {
    hide Inv;
    if IsUploadTask(e) {
      UploadTaskKeepsInv(s, e, t);
    } else if IsRecordTask(e) {
      RecordTaskKeepsInv(s, e, t);
    } else if IsReleaseTask(e) {
      ReleaseTaskKeepsInv(s, e, t);
    } else if IsServerStep(e) {
      ServerStepKeepsInv(s, e, t);
    } else {
      RequestKeepsInv(c, s, e, t);
    }
  }

  // ----- Runs --------------------------------------------------------------

  ghost predicate Initial(c: Config, s: State) {
    && s.blobOrder == EMPTY_ORDER && s.recordOrder == EMPTY_ORDER
    && s.blobs == map[] && s.spooled == 0 && s.spoolFiles == 0 && s.permits == c.concurrency
    && s.puts == map[] && s.uploads == map[] && s.handlers == map[] && s.records == map[] && s.releases == map[]
    && s.log == [] && s.uploaded == map[] && s.answered == map[] && s.acked == {}
    && s.leases == map[] && s.grants == map[]
  }

  ghost predicate IsRun(c: Config, states: seq<State>, events: seq<Event>) {
    && |states| == |events| + 1 && Initial(c, states[0])
    && forall i :: 0 <= i < |events| ==> Next(c, states[i], events[i], states[i + 1])
  }

  lemma {:induction false} StartKeepsInv(c: Config, s: State)
    requires Initial(c, s)
    ensures Inv(s)
  {
  }

  lemma {:induction false} RunKeepsInv(c: Config, states: seq<State>, events: seq<Event>, n: nat)
    requires IsRun(c, states, events) && n < |states|
    ensures Inv(states[n])
  {
    hide Inv, Next, Initial;
    if n == 0 {
      StartKeepsInv(c, states[0]);
    } else {
      RunKeepsInv(c, states, events, n - 1);
      assert Next(c, states[n - 1], events[n - 1], states[n - 1 + 1]);
      StepKeepsInv(c, states[n - 1], events[n - 1], states[n]);
    }
  }

  // ----- What follows ------------------------------------------------------

  /** When the relay sends a record, every blob acknowledged before the record
      arrived has a finished upload, begun before the record's horizon, that
      either put it on the server or failed. */
  lemma {:induction false} RecordsFollowTheirBlobs(c: Config, states: seq<State>, events: seq<Event>, n: nat, q: nat, d: Digest)
    requires IsRun(c, states, events) && n < |states|
    requires q in states[n].records && !states[n].records[q].pc.Holding?
    requires d in states[n].records[q].named
    ensures var s := states[n];
      exists u :: 0 <= u < s.records[q].horizon && u < |s.log| && s.log[u] == d
        && u in s.uploaded && (s.uploaded[u] ==> d in s.stored)
  {
    RunKeepsInv(c, states, events, n);
    var s := states[n];
    assert RecordOk(s, q);
    assert Logged(s, d, s.records[q].horizon);
    var u :| 0 <= u < s.records[q].horizon && u < |s.log| && s.log[u] == d;
    assert UploadOk(s, u);
  }

  /** A key never has two owners: of two leases on it that have neither expired
      nor been released, both are the same. */
  lemma {:induction false} SingleFlight(c: Config, states: seq<State>, events: seq<Event>, n: nat, a: Token, b: Token)
    requires IsRun(c, states, events) && n < |states|
    requires a in states[n].grants && b in states[n].grants && states[n].grants[a].key == states[n].grants[b].key
    requires states[n].grants[a].expires > states[n].now && !states[n].grants[a].released
    requires states[n].grants[b].expires > states[n].now && !states[n].grants[b].released
    ensures a == b
  {
    RunKeepsInv(c, states, events, n);
    assert GrantOk(states[n], a) && GrantOk(states[n], b);
  }

  /** When a lease that has not expired no longer stands, so that another
      runner may own its key, it was given up by its owner, and every record
      the relay had accepted from the owner has been answered: those the server
      took are there. */
  lemma {:induction false} NextOwnerFindsTheRecords(c: Config, states: seq<State>, events: seq<Event>, n: nat, a: Token, q: nat)
    requires IsRun(c, states, events) && n < |states|
    requires a in states[n].grants && states[n].grants[a].expires > states[n].now
    requires a.key in states[n].leases ==> states[n].leases[a.key].token != a
    requires q in states[n].grants[a].records
    ensures states[n].grants[a].requested && states[n].grants[a].released
    ensures q in states[n].answered && (states[n].answered[q] ==> q in states[n].landed)
  {
    RunKeepsInv(c, states, events, n);
    assert GrantOk(states[n], a);
  }

  /** A release on its way to the server follows every blob and record that
      was accepted before it. */
  lemma {:induction false} ReleasesFollowEverything(c: Config, states: seq<State>, events: seq<Event>, n: nat, id: nat)
    requires IsRun(c, states, events) && n < |states|
    requires id in states[n].releases && states[n].releases[id].pc.Deleting?
    ensures var s := states[n];
      && (forall u :: 0 <= u < s.releases[id].blobHorizon ==> BlobDone(s, u))
      && (forall r :: 0 <= r < s.releases[id].recordHorizon ==> RecordDone(s, r))
      && s.releases[id].token in s.grants
      && forall r :: r in s.grants[s.releases[id].token].records ==> r < s.releases[id].recordHorizon
  {
    RunKeepsInv(c, states, events, n);
    var s := states[n];
    assert ReleaseOk(s, id);
    forall u | 0 <= u < s.releases[id].blobHorizon
      ensures BlobDone(s, u)
    {
      assert UploadOk(s, u);
    }
    forall r | 0 <= r < s.releases[id].recordHorizon
      ensures RecordDone(s, r)
    {
      PassedMeansDone(s, s.releases[id].recordHorizon, r);
    }
  }
}
