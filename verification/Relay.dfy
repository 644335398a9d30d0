/**
 The session relay between a build's compiler wrappers and the cache server,
 together with the server's single-flight leases, as one system of small steps.

 A wrapper's blob, record and lease release are answered at once and carried
 out by background tasks. Each step below is one access to shared state: a
 read of an order's horizon, one attempt to reach the server, one atomic
 subtraction. Any number of tasks interleave, and every attempt may fail, be
 refused, or succeed without the relay hearing of it.
 */
module Relay {
  import opened Results
  import opened RelayOrder

  datatype Digest = Digest(hex: string)
  datatype Key = Key(hex: string)

  /** The server derives a token from the client, the key and the clock. */
  datatype Token = Token(client: string, key: Key, at: nat)

  const MAX_ATTEMPTS: nat := 3
  const MIN_TTL_MS: nat := 1000
  const MAX_TTL_MS: nat := 10 * 60 * 1000

  datatype BlobState = Pending | Done | Failed

  datatype UploadPc =
    | Queued
    | Asking
    | Sending(attempt: nat)
    | Ended(ok: bool)
    | Marked(ok: bool)
    | BytesOff
    | FilesOff
    | Removed

  datatype Upload = Upload(digest: Digest, length: nat, pc: UploadPc)

  /** A task waiting for a horizon: it subscribes to the version counter, then
      alternates between checking and sleeping until the version moves. */
  datatype Wait = Fresh | Check(seen: nat) | Blocked(seen: nat) | Through

  datatype RecordPc = Holding(wait: Wait) | Posting(attempt: nat) | Answered | Withdrawn

  datatype Record = Record(refs: set<Digest>, named: set<Digest>, horizon: nat, pc: RecordPc)

  datatype ReleasePc = ForBlobs(wait: Wait) | ForRecords(wait: Wait) | Deleting(attempt: nat)

  datatype Release = Release(token: Token, blobHorizon: nat, recordHorizon: nat, pc: ReleasePc)

  /** A request being accepted: the two horizons are read one after the other. */
  datatype Handler =
    | Publishing(refs: set<Digest>, token: Option<Token>, named: set<Digest>, blobHorizon: Option<nat>, recordHorizon: Option<nat>)
    | Releasing(leased: Token, blobHorizon: Option<nat>, recordHorizon: Option<nat>)

  datatype PutPc = Entering | Room(seen: nat) | Crowded(seen: nat) | Full(seen: nat) | Spooling

  datatype Put = Put(digest: Digest, length: nat, pc: PutPc)

  datatype Lease = Lease(token: Token, expires: nat)

  /** A lease as its owner knows it. `records` are the sequence numbers of the
      records the relay acknowledged to the owner before it asked to release. */
  datatype Grant = Grant(key: Key, expires: nat, requested: bool, released: bool, records: set<nat>)

  datatype Reply = Success | Refusal | Retry

  datatype State = State(
    // The relay.
    blobOrder: Order,
    recordOrder: Order,
    blobs: map<Digest, BlobState>,
    spooled: nat,
    spoolFiles: nat,
    permits: nat,
    puts: map<nat, Put>,
    uploads: map<nat, Upload>,
    handlers: map<nat, Handler>,
    records: map<nat, Record>,
    releases: map<nat, Release>,
    // The server.
    now: nat,
    stored: set<Digest>,
    landed: set<nat>,
    leases: map<Key, Lease>,
    // What has happened so far.
    log: seq<Digest>,
    uploaded: map<nat, bool>,
    answered: map<nat, bool>,
    acked: set<Digest>,
    grants: map<Token, Grant>)

  datatype Config = Config(spoolLimit: nat, concurrency: nat)

  datatype Event =
    // Wrappers' requests.
    | Known(digest: Digest)
    | PutArrives(id: nat, digest: Digest, length: nat)
    | PutStep(id: nat)
    | PutCommit(id: nat, intact: bool)
    | RecordArrives(id: nat, refs: set<Digest>, owner: Option<Token>)
    | ReleaseArrives(id: nat, token: Token)
    | ReadBlobHorizon(id: nat)
    | ReadRecordHorizon(id: nat)
    | AcceptRecord(id: nat)
    | AcceptRelease(id: nat)
    // Background uploads, named by sequence number.
    | UploadStart(q: nat)
    | UploadAsk(q: nat, present: bool)
    | UploadTry(q: nat, arrives: bool, reply: Reply)
    | UploadMark(q: nat)
    | UploadDebitBytes(q: nat)
    | UploadDebitFiles(q: nat)
    | UploadRemove(q: nat)
    | UploadTell(q: nat)
    // Background records.
    | RecordWait(q: nat)
    | RecordTry(q: nat, arrives: bool, reply: Reply)
    | RecordRemove(q: nat)
    | RecordTell(q: nat)
    // Background releases.
    | ReleaseWait(id: nat)
    | ReleaseTry(id: nat, arrives: bool, reply: Reply)
    // The server, and runners that talk to it directly.
    | Tick(elapsed: nat)
    | Acquire(client: string, key: Key, ttl: nat)
    | DirectRelease(token: Token)
    | ElsewhereStored(digest: Digest)

  predicate IsUploadTask(e: Event) {
    || e.UploadStart? || e.UploadAsk? || e.UploadTry? || e.UploadMark?
    || e.UploadDebitBytes? || e.UploadDebitFiles? || e.UploadRemove? || e.UploadTell?
  }

  predicate IsRecordTask(e: Event) {
    e.RecordWait? || e.RecordTry? || e.RecordRemove? || e.RecordTell?
  }

  predicate IsReleaseTask(e: Event) {
    e.ReleaseWait? || e.ReleaseTry?
  }

  predicate IsServerStep(e: Event) {
    e.Tick? || e.Acquire? || e.DirectRelease? || e.ElsewhereStored?
  }

  predicate IsRequest(e: Event) {
    !IsUploadTask(e) && !IsRecordTask(e) && !IsReleaseTask(e) && !IsServerStep(e)
  }

  // ----- Steps -------------------------------------------------------------

  predicate CanWait(w: Wait, o: Order) {
    !w.Through? && (w.Blocked? ==> w.seen != o.version)
  }

  function Waited(w: Wait, o: Order, horizon: nat): Wait
    requires CanWait(w, o)
  {
    match w
    case Fresh => Check(o.version)
    case Check(seen) => if o.Passed(horizon) then Through else Blocked(seen)
    case Blocked(_) => Check(o.version)
  }

  predicate IsKnown(s: State, d: Digest) {
    d in s.blobs && !s.blobs[d].Failed?
  }

  /** A reply of success means the request arrived. */
  predicate Honest(arrives: bool, reply: Reply) {
    reply.Success? ==> arrives
  }

  function Clamp(ttl: nat): nat {
    if ttl < MIN_TTL_MS then MIN_TTL_MS else if ttl > MAX_TTL_MS then MAX_TTL_MS else ttl
  }

  /** Leases still running; the server drops the others before looking. */
  function Running(leases: map<Key, Lease>, now: nat): map<Key, Lease> {
    map k | k in leases && leases[k].expires > now :: leases[k]
  }

  /** A lease is removed only by its own token. */
  function Dropped(leases: map<Key, Lease>, token: Token): map<Key, Lease> {
    if token.key in leases && leases[token.key].token == token then leases - {token.key} else leases
  }

  ghost predicate RequestEnabled(s: State, e: Event)
    requires IsRequest(e)
  {
    match e
    case Known(d) => IsKnown(s, d)
    case PutArrives(id, d, _) => id !in s.puts && !IsKnown(s, d)
    case PutStep(id) =>
      id in s.puts && !s.puts[id].pc.Spooling? && (s.puts[id].pc.Full? ==> s.puts[id].pc.seen != s.blobOrder.version)
    case PutCommit(id, _) => id in s.puts && s.puts[id].pc.Spooling?
    case RecordArrives(id, _, _) => id !in s.handlers
    case ReleaseArrives(id, t) => id !in s.handlers && t in s.grants
    case ReadBlobHorizon(id) => id in s.handlers && s.handlers[id].blobHorizon.None?
    case ReadRecordHorizon(id) =>
      id in s.handlers && s.handlers[id].blobHorizon.Some? && s.handlers[id].recordHorizon.None?
    case AcceptRecord(id) =>
      id in s.handlers && s.handlers[id].Publishing?
      && s.handlers[id].recordHorizon.Some? && s.handlers[id].blobHorizon.Some?
    case AcceptRelease(id) =>
      id in s.handlers && s.handlers[id].Releasing? && id !in s.releases
      && s.handlers[id].recordHorizon.Some? && s.handlers[id].blobHorizon.Some?
  }

  ghost predicate UploadEnabled(s: State, e: Event)
    requires IsUploadTask(e)
  {
    match e
    case UploadStart(q) => q in s.uploads && s.uploads[q].pc.Queued? && s.permits > 0
    case UploadAsk(q, present) =>
      q in s.uploads && s.uploads[q].pc.Asking? && (present ==> s.uploads[q].digest in s.stored)
    case UploadTry(q, arrives, reply) =>
      q in s.uploads && s.uploads[q].pc.Sending? && Honest(arrives, reply)
      && (reply.Retry? ==> s.uploads[q].pc.attempt < MAX_ATTEMPTS)
    case UploadMark(q) => q in s.uploads && s.uploads[q].pc.Ended?
    case UploadDebitBytes(q) => q in s.uploads && s.uploads[q].pc.Marked? && s.uploads[q].length <= s.spooled
    case UploadDebitFiles(q) => q in s.uploads && s.uploads[q].pc.BytesOff? && 1 <= s.spoolFiles
    case UploadRemove(q) => q in s.uploads && s.uploads[q].pc.FilesOff?
    case UploadTell(q) => q in s.uploads && s.uploads[q].pc.Removed?
  }

  ghost predicate RecordEnabled(s: State, e: Event)
    requires IsRecordTask(e)
  {
    match e
    case RecordWait(q) => q in s.records && s.records[q].pc.Holding? && CanWait(s.records[q].pc.wait, s.blobOrder)
    // The server takes a record only when it has every blob the record names.
    case RecordTry(q, arrives, reply) =>
      q in s.records && s.records[q].pc.Posting? && Honest(arrives, reply)
      && (arrives ==> s.records[q].refs <= s.stored)
      && (reply.Retry? ==> s.records[q].pc.attempt < MAX_ATTEMPTS)
    case RecordRemove(q) => q in s.records && s.records[q].pc.Answered?
    case RecordTell(q) => q in s.records && s.records[q].pc.Withdrawn?
  }

  ghost predicate ReleaseEnabled(s: State, e: Event)
    requires IsReleaseTask(e)
  {
    match e
    case ReleaseWait(id) =>
      id in s.releases
      && (s.releases[id].pc.ForBlobs? ==> CanWait(s.releases[id].pc.wait, s.blobOrder))
      && (s.releases[id].pc.ForRecords? ==> CanWait(s.releases[id].pc.wait, s.recordOrder))
      && !s.releases[id].pc.Deleting?
    case ReleaseTry(id, arrives, reply) =>
      id in s.releases && s.releases[id].pc.Deleting? && Honest(arrives, reply)
      && (reply.Retry? ==> s.releases[id].pc.attempt < MAX_ATTEMPTS)
  }

  ghost predicate ServerEnabled(s: State, e: Event)
    requires IsServerStep(e)
  {
    match e
    case Tick(_) => true
    // Tokens are distinct: one client does not get the same key twice at one
    // reading of the clock.
    case Acquire(client, k, _) => Token(client, k, s.now) !in s.grants
    case DirectRelease(t) => t in s.grants && s.grants[t].records == {}
    case ElsewhereStored(_) => true
  }

  ghost predicate Enabled(s: State, e: Event) {
    if IsUploadTask(e) then UploadEnabled(s, e)
    else if IsRecordTask(e) then RecordEnabled(s, e)
    else if IsReleaseTask(e) then ReleaseEnabled(s, e)
    else if IsServerStep(e) then ServerEnabled(s, e)
    else RequestEnabled(s, e)
  }

  function ApplyPut(c: Config, s: State, id: nat): State
    requires id in s.puts && !s.puts[id].pc.Spooling?
  {
    var put := s.puts[id];
    var pc := match put.pc
      case Entering => Room(s.blobOrder.version)
      case Room(seen) => if s.spooled >= c.spoolLimit then Crowded(seen) else Spooling
      case Crowded(seen) => if s.spoolFiles > 0 then Full(seen) else Spooling
      case Full(_) => Room(s.blobOrder.version);
    s.(puts := s.puts[id := put.(pc := pc)])
  }

  /** The spooled blob is intact or not, and may have become known meanwhile;
      otherwise it is counted, begun and acknowledged under one lock. */
  function ApplyCommit(s: State, id: nat, intact: bool): State
    requires id in s.puts
  {
    var d, length := s.puts[id].digest, s.puts[id].length;
    var begins := intact && !IsKnown(s, d);
    s.(
      puts := s.puts - {id},
      acked := if intact then s.acked + {d} else s.acked,
      blobs := if begins then s.blobs[d := Pending] else s.blobs,
      spooled := if begins then s.spooled + length else s.spooled,
      spoolFiles := if begins then s.spoolFiles + 1 else s.spoolFiles,
      blobOrder := if begins then s.blobOrder.Begun() else s.blobOrder,
      uploads := if begins then s.uploads[s.blobOrder.next := Upload(d, length, Queued)] else s.uploads,
      log := if begins then s.log + [d] else s.log)
  }

  /** A grant gains a record only until its owner asks to release it. */
  function WithRecord(grants: map<Token, Grant>, owner: Option<Token>, q: nat): map<Token, Grant> {
    if owner.Some? && owner.value in grants && !grants[owner.value].requested && !grants[owner.value].released
    then grants[owner.value := grants[owner.value].(records := grants[owner.value].records + {q})]
    else grants
  }

  function ApplyAcceptRecord(s: State, id: nat): State
    requires id in s.handlers && s.handlers[id].Publishing? && s.handlers[id].blobHorizon.Some?
  {
    var h, q := s.handlers[id], s.recordOrder.next;
    s.(
      handlers := s.handlers - {id},
      recordOrder := s.recordOrder.Begun(),
      records := s.records[q := Record(h.refs, h.named, h.blobHorizon.value, Holding(Fresh))],
      grants := WithRecord(s.grants, h.token, q))
  }

  function ApplyAcceptRelease(s: State, id: nat): State
    requires id in s.handlers && s.handlers[id].Releasing?
    requires s.handlers[id].blobHorizon.Some? && s.handlers[id].recordHorizon.Some?
  {
    var h := s.handlers[id];
    s.(
      handlers := s.handlers - {id},
      releases := s.releases[id := Release(h.leased, h.blobHorizon.value, h.recordHorizon.value, ForBlobs(Fresh))])
  }

  function SetUpload(s: State, q: nat, pc: UploadPc): State
    requires q in s.uploads
  {
    s.(uploads := s.uploads[q := s.uploads[q].(pc := pc)])
  }

  function SetRecord(s: State, q: nat, pc: RecordPc): State
    requires q in s.records
  {
    s.(records := s.records[q := s.records[q].(pc := pc)])
  }

  function SetRelease(s: State, id: nat, pc: ReleasePc): State
    requires id in s.releases
  {
    s.(releases := s.releases[id := s.releases[id].(pc := pc)])
  }

  function ApplyUploadTry(s: State, q: nat, arrives: bool, reply: Reply): State
    requires q in s.uploads && s.uploads[q].pc.Sending?
  {
    var u := s.uploads[q];
    s.(
      stored := if arrives then s.stored + {u.digest} else s.stored,
      uploads := s.uploads[q := u.(pc := if reply.Retry? then Sending(u.pc.attempt + 1) else Ended(reply.Success?))],
      permits := if reply.Retry? then s.permits else s.permits + 1,
      uploaded := if reply.Retry? then s.uploaded else s.uploaded[q := reply.Success?])
  }

  function ApplyRecordTry(s: State, q: nat, arrives: bool, reply: Reply): State
    requires q in s.records && s.records[q].pc.Posting?
  {
    var r := s.records[q];
    s.(
      landed := if arrives then s.landed + {q} else s.landed,
      records := s.records[q := r.(pc := if reply.Retry? then Posting(r.pc.attempt + 1) else Answered)],
      answered := if reply.Retry? then s.answered else s.answered[q := reply.Success?])
  }

  function Given(grants: map<Token, Grant>, t: Token): map<Token, Grant> {
    if t in grants then grants[t := grants[t].(requested := true, released := true)] else grants
  }

  function ReleaseReplied(s: State, id: nat, reply: Reply): State
    requires id in s.releases && s.releases[id].pc.Deleting?
  {
    s.(releases :=
         if reply.Retry? then s.releases[id := s.releases[id].(pc := Deleting(s.releases[id].pc.attempt + 1))]
         else s.releases - {id})
  }

  /** The attempt may have arrived, whatever the relay hears of it. */
  function MaybeArrived(s: State, t: Token, arrives: bool): State {
    s.(
      leases := if arrives then Dropped(s.leases, t) else s.leases,
      grants := if arrives then Given(s.grants, t) else s.grants)
  }

  function ApplyReleaseTry(s: State, id: nat, arrives: bool, reply: Reply): State
    requires id in s.releases && s.releases[id].pc.Deleting?
  {
    ReleaseReplied(MaybeArrived(s, s.releases[id].token, arrives), id, reply)
  }

  function ReleaseWaited(s: State, r: Release): ReleasePc
    requires !r.pc.Deleting?
    requires r.pc.ForBlobs? ==> CanWait(r.pc.wait, s.blobOrder)
    requires r.pc.ForRecords? ==> CanWait(r.pc.wait, s.recordOrder)
  {
    match r.pc
    case ForBlobs(w) =>
      var next := Waited(w, s.blobOrder, r.blobHorizon);
      if next.Through? then ForRecords(Fresh) else ForBlobs(next)
    case ForRecords(w) =>
      var next := Waited(w, s.recordOrder, r.recordHorizon);
      if next.Through? then Deleting(1) else ForRecords(next)
  }

  function ApplyReleaseWait(s: State, id: nat): State
    requires id in s.releases && !s.releases[id].pc.Deleting?
    requires s.releases[id].pc.ForBlobs? ==> CanWait(s.releases[id].pc.wait, s.blobOrder)
    requires s.releases[id].pc.ForRecords? ==> CanWait(s.releases[id].pc.wait, s.recordOrder)
  {
    SetRelease(s, id, ReleaseWaited(s, s.releases[id]))
  }

  function ApplyAcquire(s: State, client: string, k: Key, ttl: nat): State {
    var running, t, expires := Running(s.leases, s.now), Token(client, k, s.now), s.now + Clamp(ttl);
    s.(leases := if k in running then running else running[k := Lease(t, expires)],
       grants := if k in running then s.grants else s.grants[t := Grant(k, expires, false, false, {})])
  }

  function ApplyReleaseArrives(s: State, id: nat, t: Token): State
    requires t in s.grants
  {
    s.(handlers := s.handlers[id := Releasing(t, None, None)],
       grants := s.grants[t := s.grants[t].(requested := true)])
  }

  function ApplyRead(s: State, id: nat): State
    requires id in s.handlers
  {
    var h := s.handlers[id];
    s.(handlers := s.handlers[id :=
         if h.blobHorizon.None? then h.(blobHorizon := Some(s.blobOrder.next))
         else h.(recordHorizon := Some(s.recordOrder.next))])
  }

  function ApplyUploadAsk(s: State, q: nat, present: bool): State
    requires q in s.uploads
  {
    s.(uploads := s.uploads[q := s.uploads[q].(pc := if present then Ended(true) else Sending(1))],
       permits := if present then s.permits + 1 else s.permits,
       uploaded := if present then s.uploaded[q := true] else s.uploaded)
  }

  function ApplyUploadMark(s: State, q: nat): State
    requires q in s.uploads && s.uploads[q].pc.Ended?
  {
    SetUpload(s, q, Marked(s.uploads[q].pc.ok)).(
      blobs := s.blobs[s.uploads[q].digest := if s.uploads[q].pc.ok then Done else Failed])
  }

  function ApplyUploadRemove(s: State, q: nat): State
    requires q in s.uploads
  {
    SetUpload(s, q, Removed).(blobOrder := s.blobOrder.Left(q))
  }

  function ApplyUploadTell(s: State, q: nat): State {
    s.(uploads := s.uploads - {q}, blobOrder := s.blobOrder.Told())
  }

  function ApplyRecordWait(s: State, q: nat): State
    requires q in s.records && s.records[q].pc.Holding? && CanWait(s.records[q].pc.wait, s.blobOrder)
  {
    var w := Waited(s.records[q].pc.wait, s.blobOrder, s.records[q].horizon);
    SetRecord(s, q, if w.Through? then Posting(1) else Holding(w))
  }

  function ApplyRecordRemove(s: State, q: nat): State
    requires q in s.records
  {
    SetRecord(s, q, Withdrawn).(recordOrder := s.recordOrder.Left(q))
  }

  function ApplyRecordTell(s: State, q: nat): State {
    s.(records := s.records - {q}, recordOrder := s.recordOrder.Told())
  }

  ghost predicate RequestNext(c: Config, s: State, e: Event, t: State)
    requires IsRequest(e) && RequestEnabled(s, e)
  {
    match e
    case Known(d) => t == s.(acked := s.acked + {d})
    case PutArrives(id, d, length) => t == s.(puts := s.puts[id := Put(d, length, Entering)])
    case PutStep(id) => t == ApplyPut(c, s, id)
    case PutCommit(id, intact) => t == ApplyCommit(s, id, intact)
    case RecordArrives(id, refs, owner) =>
      t == s.(handlers := s.handlers[id := Publishing(refs, owner, s.acked, None, None)])
    case ReleaseArrives(id, k) => t == ApplyReleaseArrives(s, id, k)
    case ReadBlobHorizon(id) => t == ApplyRead(s, id)
    case ReadRecordHorizon(id) => t == ApplyRead(s, id)
    case AcceptRecord(id) => t == ApplyAcceptRecord(s, id)
    case AcceptRelease(id) => t == ApplyAcceptRelease(s, id)
  }

  ghost predicate UploadNext(s: State, e: Event, t: State)
    requires IsUploadTask(e) && UploadEnabled(s, e)
  {
    match e
    case UploadStart(q) => t == SetUpload(s, q, Asking).(permits := s.permits - 1)
    case UploadAsk(q, present) => t == ApplyUploadAsk(s, q, present)
    case UploadTry(q, arrives, reply) => t == ApplyUploadTry(s, q, arrives, reply)
    case UploadMark(q) => t == ApplyUploadMark(s, q)
    case UploadDebitBytes(q) => t == SetUpload(s, q, BytesOff).(spooled := s.spooled - s.uploads[q].length)
    case UploadDebitFiles(q) => t == SetUpload(s, q, FilesOff).(spoolFiles := s.spoolFiles - 1)
    case UploadRemove(q) => t == ApplyUploadRemove(s, q)
    case UploadTell(q) => t == ApplyUploadTell(s, q)
  }

  ghost predicate RecordNext(s: State, e: Event, t: State)
    requires IsRecordTask(e) && RecordEnabled(s, e)
  {
    match e
    case RecordWait(q) => t == ApplyRecordWait(s, q)
    case RecordTry(q, arrives, reply) => t == ApplyRecordTry(s, q, arrives, reply)
    case RecordRemove(q) => t == ApplyRecordRemove(s, q)
    case RecordTell(q) => t == ApplyRecordTell(s, q)
  }

  ghost predicate ReleaseNext(s: State, e: Event, t: State)
    requires IsReleaseTask(e) && ReleaseEnabled(s, e)
  {
    match e
    case ReleaseWait(id) => t == ApplyReleaseWait(s, id)
    case ReleaseTry(id, arrives, reply) =>
      t == ApplyReleaseTry(s, id, arrives, reply)
  }

  ghost predicate ServerNext(s: State, e: Event, t: State)
    requires IsServerStep(e) && ServerEnabled(s, e)
  {
    match e
    case Tick(elapsed) => t == s.(now := s.now + elapsed)
    case Acquire(client, k, ttl) => t == ApplyAcquire(s, client, k, ttl)
    case DirectRelease(k) => t == MaybeArrived(s, k, true)
    case ElsewhereStored(d) => t == s.(stored := s.stored + {d})
  }

  /** One step of the system from `s` to `t`. */
  ghost predicate Next(c: Config, s: State, e: Event, t: State) {
    if IsUploadTask(e) then UploadEnabled(s, e) && UploadNext(s, e, t)
    else if IsRecordTask(e) then RecordEnabled(s, e) && RecordNext(s, e, t)
    else if IsReleaseTask(e) then ReleaseEnabled(s, e) && ReleaseNext(s, e, t)
    else if IsServerStep(e) then ServerEnabled(s, e) && ServerNext(s, e, t)
    else RequestEnabled(s, e) && RequestNext(c, s, e, t)
  }
}
