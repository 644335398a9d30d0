/**
 The machine-lease scheduler as a state machine: who waits, who holds which
 machine, who runs nested in a session, and which grants are still unclaimed.
 */
module Scheduler {
  import opened Results
  import opened LeaseQueue
  import Journal
  import Recency

  datatype Config = Config(machines: seq<Machine>, jobs: nat, ciJobs: nat, ciExpiry: nat)

  datatype Holder = Holder(
    id: nat,
    machine: Machine,
    title: string,
    since: nat,
    estimateSecs: nat,
    session: bool,
    token: Option<string>,
    preempting: bool,
    overrunLogged: bool)

  datatype Grant = Grant(id: nat, machine: Machine, jobs: nat, token: Option<string>, nested: bool)

  datatype Admission = Queued(id: nat) | Nested(grant: Grant) | Refused

  datatype Reservation = Reservation(title: string, until: nat)

  datatype State = State(
    nextId: nat,
    waiting: seq<Waiting>,
    holders: map<Machine, Holder>,
    nested: map<nat, Machine>,
    paused: set<Machine>,
    reserved: map<Machine, Reservation>,
    ci: map<Machine, map<string, nat>>,
    mergeQueue: map<nat, nat>,
    unclaimed: map<nat, Grant>,
    tokenSeed: nat,
    // What has happened so far.
    issued: map<nat, string>,
    claimed: set<nat>)

  // ----- Tokens ------------------------------------------------------------

  const TWO_TO_THE_64: nat := 0x1_0000_0000_0000_0000

  function NextSeed(seed: nat): nat {
    (seed * 6364136223846793005 + 1442695040888963407) % TWO_TO_THE_64
  }

  function HexDigit(d: nat): char
    requires d < 16
  {
    if d < 10 then ('0' as int + d) as char else ('a' as int + (d - 10)) as char
  }

  /** The low digits of a number in base sixteen, padded with zeros. */
  function Hex(n: nat, digits: nat): (r: string)
    ensures |r| == digits
  {
    if digits == 0 then "" else Hex(n / 16, digits - 1) + [HexDigit(n % 16)]
  }

  function TokenText(id: nat, seed: nat): string {
    Recency.Decimal(id) + ['-'] + Hex(seed, 16)
  }

  ghost predicate IsTokenOf(text: string, id: nat) {
    exists seed: nat :: text == TokenText(id, seed)
  }

  /** A token names its request, whatever the seed: the digits before the
      first dash are the id. */
  lemma {:induction false} TokensNameTheirId(a: nat, b: nat, x: nat, y: nat)
    requires TokenText(a, x) == TokenText(b, y)
    ensures a == b
  {
    var p, q := Recency.Decimal(a), Recency.Decimal(b);
    Recency.IndexOfAfter(p, '-', Hex(x, 16));
    Recency.IndexOfAfter(q, '-', Hex(y, 16));
    assert p == TokenText(a, x)[..|p|] && q == TokenText(b, y)[..|q|];
    Recency.DecimalParses(a);
    Recency.DecimalParses(b);
  }

  // ----- Steps -------------------------------------------------------------

  predicate CiActive(c: Config, ci: map<Machine, map<string, nat>>, machine: Machine, now: nat) {
    machine in ci && exists job :: job in ci[machine] && now < ci[machine][job] + c.ciExpiry && c.ciExpiry > 0
  }

  function Jobs(c: Config, ci: map<Machine, map<string, nat>>, machine: Machine, now: nat): nat {
    if CiActive(c, ci, machine, now) then c.ciJobs else c.jobs
  }

  datatype Route = Unknown | Preempted | Inside | InQueue

  /** A request inside the session that holds its machine runs at once, until
      the session is preempted; any other waits. */
  function RouteOf(c: Config, s: State, r: Request): Route {
    if r.machine !in c.machines then Unknown
    else if r.token.Some? && r.machine in s.holders && s.holders[r.machine].token == r.token then
      if s.holders[r.machine].preempting then Preempted else Inside
    else InQueue
  }

  function Admitted(c: Config, s: State, r: Request, now: nat): State {
    var route := RouteOf(c, s, r);
    s.(
      nextId := if route.Unknown? then s.nextId else s.nextId + 1,
      nested := if route.Inside? then s.nested[s.nextId := r.machine] else s.nested,
      waiting := if route.InQueue? then s.waiting + [Waiting(s.nextId, r, now, None)] else s.waiting)
  }

  function Answer(c: Config, s: State, r: Request, now: nat): Admission {
    match RouteOf(c, s, r)
    case InQueue => Queued(s.nextId)
    case Inside => Nested(Grant(s.nextId, r.machine, Jobs(c, s.ci, r.machine, now), r.token, true))
    case _ => Refused
  }

  predicate FoundAt(text: string, part: string, i: nat) {
    i + |part| <= |text| && text[i..i + |part|] == part
  }

  predicate Contains(text: string, part: string) {
    exists i :: 0 <= i <= |text| && FoundAt(text, part, i)
  }

  function ReservationAt(s: State, machine: Machine, now: nat): Option<string> {
    if machine in s.reserved && s.reserved[machine].until > now then Some(s.reserved[machine].title) else None
  }

  predicate Eligible(reservation: Option<string>, w: Waiting) {
    reservation.Some? ==> Contains(w.request.title, reservation.value)
  }

  function FirstEligible(order: seq<Waiting>, reservation: Option<string>): (r: Option<Waiting>)
    ensures r.Some? ==> r.value in order && Eligible(reservation, r.value)
    ensures r.None? ==> forall w :: w in order ==> !Eligible(reservation, w)
  {
    if |order| == 0 then None
    else if Eligible(reservation, order[0]) then Some(order[0])
    else
      assert order == [order[0]] + order[1..];
      FirstEligible(order[1..], reservation)
  }

  /** The one to be granted a machine now. */
  function Chosen(s: State, machine: Machine, now: nat): Option<Waiting> {
    if machine in s.holders || machine in s.paused then None
    else FirstEligible(Order(s.mergeQueue, s.waiting, machine), ReservationAt(s, machine, now))
  }

  function Without(ws: seq<Waiting>, id: nat): (r: seq<Waiting>)
    ensures forall w :: w in r <==> w in ws && w.id != id
  {
    if |ws| == 0 then [] else
      var last := ws[|ws| - 1];
      assert ws == ws[..|ws| - 1] + [last];
      Without(ws[..|ws| - 1], id) + if last.id != id then [last] else []
  }

  function GrantFor(c: Config, s: State, machine: Machine, now: nat, w: Waiting): Grant {
    Grant(w.id, machine, Jobs(c, s.ci, machine, now),
      if w.request.session then Some(TokenText(w.id, NextSeed(s.tokenSeed))) else None, false)
  }

  function HolderFor(machine: Machine, now: nat, w: Waiting, token: Option<string>): Holder {
    Holder(w.id, machine, w.request.title, now, w.request.estimateSecs, w.request.session, token, false, false)
  }

  function GrantedTo(c: Config, s: State, machine: Machine, now: nat, w: Waiting): State {
    var g := GrantFor(c, s, machine, now, w);
    s.(
      waiting := Without(s.waiting, w.id),
      tokenSeed := if w.request.session then NextSeed(s.tokenSeed) else s.tokenSeed,
      issued := if g.token.Some? then s.issued[w.id := g.token.value] else s.issued,
      holders := s.holders[machine := HolderFor(machine, now, w, g.token)],
      unclaimed := s.unclaimed[w.id := g])
  }

  function Granted(c: Config, s: State, machine: Machine, now: nat): State {
    var w := Chosen(s, machine, now);
    if w.Some? then GrantedTo(c, s, machine, now, w.value) else s
  }

  /** A call to grant goes through the machines in order. */
  function GrantedAll(c: Config, s: State, machines: seq<Machine>, now: nat): State {
    if |machines| == 0 then s
    else Granted(c, GrantedAll(c, s, machines[..|machines| - 1], now), machines[|machines| - 1], now)
  }

  function Claimed(s: State, id: nat): State {
    s.(unclaimed := s.unclaimed - {id},
       claimed := if id in s.unclaimed then s.claimed + {id} else s.claimed)
  }

  function WithoutHolder(holders: map<Machine, Holder>, id: nat): map<Machine, Holder> {
    map m | m in holders && holders[m].id != id :: holders[m]
  }

  /** A nested run's end leaves the holders alone. */
  function Released(s: State, id: nat): State {
    s.(waiting := Without(s.waiting, id),
       unclaimed := s.unclaimed - {id},
       nested := s.nested - {id},
       holders := if id in s.nested then s.holders else WithoutHolder(s.holders, id))
  }

  function MovedTo(ws: seq<Waiting>, id: nat, position: nat): seq<Waiting> {
    seq(|ws|, i requires 0 <= i < |ws| => if ws[i].id == id then ws[i].(manual := Some(position)) else ws[i])
  }

  function MarkPreempted(holders: map<Machine, Holder>, id: nat): map<Machine, Holder> {
    map m | m in holders :: if holders[m].id == id then holders[m].(preempting := true) else holders[m]
  }

  predicate Overruns(h: Holder, now: nat) {
    !h.overrunLogged && now > h.since + h.estimateSecs * 1500
  }

  function MarkOverruns(holders: map<Machine, Holder>, now: nat): map<Machine, Holder> {
    map m | m in holders :: if Overruns(holders[m], now) then holders[m].(overrunLogged := true) else holders[m]
  }

  datatype Op =
    | Admit(request: Request, now: nat)
    | Grants(now: nat)
    | Claim(id: nat)
    | Release(id: nat)
    | Reorder(id: nat, position: nat)
    | Preempt(id: nat)
    | Report(now: nat)
    | Configure(paused: set<Machine>, reserved: map<Machine, Reservation>, ci: map<Machine, map<string, nat>>, mergeQueue: map<nat, nat>)

  function Apply(c: Config, s: State, op: Op): State {
    match op
    case Admit(r, now) => Admitted(c, s, r, now)
    case Grants(now) => GrantedAll(c, s, c.machines, now)
    case Claim(id) => Claimed(s, id)
    case Release(id) => Released(s, id)
    case Reorder(id, position) => s.(waiting := MovedTo(s.waiting, id, position))
    case Preempt(id) => s.(holders := MarkPreempted(s.holders, id))
    case Report(now) => s.(holders := MarkOverruns(s.holders, now))
    case Configure(paused, reserved, ci, mergeQueue) =>
      s.(paused := paused, reserved := reserved, ci := ci, mergeQueue := mergeQueue)
  }

  const START := State(1, [], map[], map[], {}, map[], map[], map[], map[], 0, map[], {})

  ghost predicate Initial(s: State) {
    exists seed: nat :: s == START.(tokenSeed := seed)
  }

  // ----- The invariant -----------------------------------------------------

  ghost predicate Waits(s: State, id: nat) {
    exists i :: 0 <= i < |s.waiting| && s.waiting[i].id == id
  }

  ghost predicate Holds(s: State, id: nat) {
    exists m :: m in s.holders && s.holders[m].id == id
  }

  ghost predicate WaiterOk(s: State, i: nat)
    requires i < |s.waiting|
  {
    var id := s.waiting[i].id;
    && id < s.nextId && id !in s.nested && id !in s.claimed && id !in s.issued && id !in s.unclaimed
    && !Holds(s, id)
    && forall j :: 0 <= j < |s.waiting| && j != i ==> s.waiting[j].id != id
  }

  ghost predicate HolderOk(s: State, m: Machine)
    requires m in s.holders
  {
    var h := s.holders[m];
    && h.machine == m && h.id < s.nextId && h.id !in s.nested
    && (h.token.Some? ==> h.id in s.issued && s.issued[h.id] == h.token.value)
    && forall n :: n in s.holders && n != m ==> s.holders[n].id != h.id
  }

  ghost predicate UnclaimedOk(s: State, id: nat)
    requires id in s.unclaimed
  {
    var g := s.unclaimed[id];
    && g.id == id && id !in s.claimed && !g.nested
    && g.machine in s.holders && s.holders[g.machine].id == id && s.holders[g.machine].token == g.token
  }

  ghost predicate IssuedOk(s: State, id: nat)
    requires id in s.issued
  {
    id < s.nextId && IsTokenOf(s.issued[id], id)
  }

  ghost predicate Inv(s: State) {
    && (forall i :: 0 <= i < |s.waiting| ==> WaiterOk(s, i))
    && (forall m :: m in s.holders ==> HolderOk(s, m))
    && (forall id :: id in s.unclaimed ==> UnclaimedOk(s, id))
    && (forall id :: id in s.issued ==> IssuedOk(s, id))
    && (forall id :: id in s.nested ==> id < s.nextId)
    && (forall id :: id in s.claimed ==> id < s.nextId)
  }

  /** The id is nowhere: not waiting, holding, nested or granted. */
  ghost predicate Gone(s: State, id: nat) {
    !Waits(s, id) && !Holds(s, id) && id !in s.nested && id !in s.unclaimed
  }
}
