/**
 The scheduler as it runs: fields updated step by step, each operation tied to
 its step of the state machine and keeping its invariant.

 The ghost fields remember what no operation forgets: the tokens that were
 issued and the grants that were claimed. Everything else is what the daemon
 keeps under its lock. Each method states its whole new state by the function
 that defines the step, and what that function means is proved of every run.
 */
module LeaseScheduler {
  import opened Results
  import opened LeaseQueue
  import opened Scheduler
  import opened SchedulerProofs

  class MachineLeases {
    const config: Config
    var nextId: nat
    var waiting: seq<Waiting>
    var holders: map<Machine, Holder>
    var nested: map<nat, Machine>
    var paused: set<Machine>
    var reserved: map<Machine, Reservation>
    var ci: map<Machine, map<string, nat>>
    var mergeQueue: map<nat, nat>
    var unclaimed: map<nat, Grant>
    var tokenSeed: nat
    ghost var issued: map<nat, string>
    ghost var claimed: set<nat>

    ghost function Value(): State
      reads this
    {
      State(nextId, waiting, holders, nested, paused, reserved, ci, mergeQueue, unclaimed, tokenSeed, issued, claimed)
    }

    ghost predicate Valid()
      reads this
    {
      Inv(Value())
    }

    constructor (config: Config, seed: nat)
      ensures Valid() && Initial(Value()) && this.config == config
    {
      this.config := config;
      nextId, waiting, holders, nested := 1, [], map[], map[];
      paused, reserved, ci, mergeQueue := {}, map[], map[], map[];
      unclaimed, tokenSeed, issued, claimed := map[], seed, map[], {};
      new;
      StartIsOk(Value());
    }

    method Admit(request: Request, now: nat) returns (admission: Admission)
      requires Valid()
      modifies this
      ensures Valid() && Value() == Admitted(config, old(Value()), request, now)
      ensures admission == Answer(config, old(Value()), request, now)
    {
      hide Inv, Jobs;
      ghost var start := Value();
      ghost var answer := Answer(config, start, request, now);
      AdmittedKeepsInv(config, start, request, now);
      admission := Refused;
      if request.machine in config.machines {
        var id := nextId;
        nextId := nextId + 1;
        if request.token.Some? && request.machine in holders && holders[request.machine].token == request.token {
          if !holders[request.machine].preempting {
            nested := nested[id := request.machine];
            var jobs := JobsFor(request.machine, now);
            admission := Nested(Scheduler.Grant.Grant(id, request.machine, jobs, request.token, true));
          }
        } else {
          waiting := waiting + [Waiting(id, request, now, None)];
          admission := Queued(id);
        }
      }
      assert Value() == Admitted(config, start, request, now);
    }

    method JobsFor(machine: Machine, now: nat) returns (jobs: nat)
      ensures jobs == Jobs(config, ci, machine, now)
    {
      var active := HasCi(machine, now);
      jobs := if active then config.ciJobs else config.jobs;
    }

    method HasCi(machine: Machine, now: nat) returns (active: bool)
      ensures active <==> CiActive(config, ci, machine, now)
    {
      if machine !in ci {
        return false;
      }
      var jobs := ci[machine];
      var left := jobs.Keys;
      active := false;
      while left != {}
        invariant left <= jobs.Keys
        invariant active <==> exists job :: job in jobs && job !in left && now < jobs[job] + config.ciExpiry && config.ciExpiry > 0
        decreases |left|
      {
        var job :| job in left;
        var age := if now < jobs[job] then 0 else now - jobs[job];
        active := active || age < config.ciExpiry;
        left := left - {job};
      }
    }

    method FindEligible(order: seq<Waiting>, reservation: Option<string>) returns (found: Option<Waiting>)
      ensures found == FirstEligible(order, reservation)
    {
      var i := 0;
      while i < |order|
        invariant 0 <= i <= |order|
        invariant FirstEligible(order, reservation) == FirstEligible(order[i..], reservation)
      {
        var fits := reservation.None?;
        if !fits {
          fits := HasPart(order[i].request.title, reservation.value);
        }
        if fits {
          return Some(order[i]);
        }
        i := i + 1;
      }
      found := None;
    }

    method HasPart(text: string, part: string) returns (found: bool)
      ensures found <==> Contains(text, part)
    {
      for i := 0 to |text| + 1
        invariant forall k :: 0 <= k < i ==> !FoundAt(text, part, k)
      {
        if FoundAt(text, part, i) {
          return true;
        }
      }
      found := false;
    }

    method PositionOf(id: nat) returns (index: nat)
      requires exists i :: 0 <= i < |waiting| && waiting[i].id == id
      ensures index < |waiting| && waiting[index].id == id
    {
      index := 0;
      while waiting[index].id != id
        invariant index < |waiting| && exists i :: index <= i < |waiting| && waiting[i].id == id
        decreases |waiting| - index
      {
        index := index + 1;
      }
    }

    method Choose(machine: Machine, now: nat) returns (found: Option<Waiting>)
      ensures found == Chosen(Value(), machine, now)
    {
      hide Order, Contains, FirstEligible;
      if machine in holders || machine in paused {
        return None;
      }
      var reservation := None;
      if machine in reserved && reserved[machine].until > now {
        reservation := Some(reserved[machine].title);
      }
      var order := OrderFor(mergeQueue, waiting, machine);
      found := FindEligible(order, reservation);
    }

    method HandOver(machine: Machine, now: nat, w: Waiting) returns (grant: Scheduler.Grant)
      requires Valid() && w in waiting
      modifies this
      ensures Value() == GrantedTo(config, old(Value()), machine, now, w)
      ensures grant == GrantFor(config, old(Value()), machine, now, w)
    {
      hide Inv, NextSeed, TokenText, Jobs, Without;
      var index := PositionOf(w.id);
      TakenOut(Value(), index, w.id);
      waiting := waiting[..index] + waiting[index + 1..];
      var token := None;
      if w.request.session {
        tokenSeed := NextSeed(tokenSeed);
        token := Some(TokenText(w.id, tokenSeed));
        issued := issued[w.id := token.value];
      }
      var jobs := JobsFor(machine, now);
      grant := Scheduler.Grant.Grant(w.id, machine, jobs, token, false);
      holders := holders[machine := HolderFor(machine, now, w, token)];
      unclaimed := unclaimed[w.id := grant];
    }

    /** One machine's turn in a call to grant. */
    method GrantOne(machine: Machine, now: nat) returns (grant: Option<Scheduler.Grant>)
      requires Valid()
      modifies this
      ensures Valid() && Value() == Granted(config, old(Value()), machine, now)
      ensures match Chosen(old(Value()), machine, now)
              case None => grant == None
              case Some(w) => grant == Some(GrantFor(config, old(Value()), machine, now, w))
    {
      GrantedKeepsInv(config, Value(), machine, now);
      var found := Choose(machine, now);
      OrderIsAPermutation(mergeQueue, waiting, machine);
      hide Inv, Order, GrantedTo, GrantFor;
      if found.None? {
        return None;
      }
      var g := HandOver(machine, now, found.value);
      grant := Some(g);
    }

    method Grant(now: nat) returns (grants: seq<Grant>)
      requires Valid()
      modifies this
      ensures Valid() && Value() == GrantedAll(config, old(Value()), config.machines, now)
      ensures forall m :: m in config.machines ==> Settled(Value(), m, now)
    {
      ghost var start := Value();
      GrantedAllSettles(config, start, config.machines, now);
      hide Inv, Granted, Settled;
      grants := [];
      for i := 0 to |config.machines|
        invariant Valid() && Value() == GrantedAll(config, start, config.machines[..i], now)
      {
        assert config.machines[..i + 1][..i] == config.machines[..i];
        var grant := GrantOne(config.machines[i], now);
        if grant.Some? {
          grants := grants + [grant.value];
        }
      }
      assert config.machines[..|config.machines|] == config.machines;
    }

    method Claim(id: nat) returns (grant: Option<Grant>)
      requires Valid()
      modifies this
      ensures Valid() && Value() == Claimed(old(Value()), id)
      ensures grant == if id in old(unclaimed) then Some(old(unclaimed)[id]) else None
    {
      hide Inv;
      ClaimedKeepsInv(Value(), id);
      if id in unclaimed {
        grant := Some(unclaimed[id]);
        unclaimed := unclaimed - {id};
        claimed := claimed + {id};
      } else {
        grant := None;
        assert unclaimed - {id} == unclaimed;
      }
    }

    /** Returns the holder it freed, if it was one. */
    method Release(id: nat) returns (freed: Option<Holder>)
      requires Valid()
      modifies this
      ensures Valid() && Value() == Released(old(Value()), id) && Gone(Value(), id)
      ensures FreedBy(old(holders), id, freed)
    {
      hide Inv, Gone, WithoutHolder, Without, FreedBy, FiledOnce;
      ghost var start := Value();
      FiledOnceEach(start, id);
      waiting := Retain(waiting, id);
      unclaimed := unclaimed - {id};
      if id in nested {
        nested := nested - {id};
        freed := None;
      } else {
        freed := Free(id);
        assert nested - {id} == nested;
      }
      ReleasedKeepsInv(start, id);
      ReleasedIsGone(start, id);
      assert Value() == Released(start, id);
    }

    method Free(id: nat) returns (freed: Option<Holder>)
      requires FiledOnce(holders)
      modifies this`holders
      ensures holders == WithoutHolder(old(holders), id) && FreedBy(old(holders), id, freed)
    {
      var found := FindHolder(id);
      if found.None? {
        assert holders == WithoutHolder(holders, id);
        return None;
      }
      freed := Some(holders[found.value]);
      holders := holders - {found.value};
      assert holders == WithoutHolder(old(holders), id);
    }

    method Retain(ws: seq<Waiting>, id: nat) returns (r: seq<Waiting>)
      ensures r == Without(ws, id)
    {
      r := [];
      for i := 0 to |ws|
        invariant r == Without(ws[..i], id)
      {
        assert ws[..i + 1][..i] == ws[..i];
        if ws[i].id != id {
          r := r + [ws[i]];
        }
      }
      assert ws[..|ws|] == ws;
    }

    method FindHolder(id: nat) returns (machine: Option<Machine>)
      ensures machine.None? ==> forall m :: m in holders ==> holders[m].id != id
      ensures machine.Some? ==> machine.value in holders && holders[machine.value].id == id
    {
      var left := holders.Keys;
      while left != {}
        invariant left <= holders.Keys
        invariant forall m :: m in holders && m !in left ==> holders[m].id != id
        decreases |left|
      {
        var m :| m in left;
        if holders[m].id == id {
          return Some(m);
        }
        left := left - {m};
      }
      machine := None;
    }

    method Reorder(id: nat, position: nat) returns (moved: bool)
      requires Valid()
      modifies this
      ensures Valid() && Value() == old(Value()).(waiting := MovedTo(old(waiting), id, position))
      ensures moved <==> Waits(old(Value()), id)
    {
      ghost var start := Value();
      MovedKeepsInv(start, id, position);
      DistinctWaiters(start);
      hide Inv;
      for i := 0 to |waiting|
        invariant waiting == start.waiting && forall j :: 0 <= j < i ==> waiting[j].id != id
      {
        if waiting[i].id == id {
          waiting := waiting[i := waiting[i].(manual := Some(position))];
          assert waiting == MovedTo(start.waiting, id, position);
          return true;
        }
      }
      assert waiting == MovedTo(waiting, id, position);
      moved := false;
    }

    /** Marks a session to end at its next boundary. */
    method Preempt(id: nat) returns (held: bool)
      requires Valid()
      modifies this
      ensures Valid() && Value() == old(Value()).(holders := MarkPreempted(old(holders), id))
      ensures held <==> Holds(old(Value()), id)
    {
      hide Inv;
      MarkedKeepsInv(Value(), MarkPreempted(holders, id));
      var found := FindHolder(id);
      OneHolderMarked(Value(), id, found);
      held := found.Some?;
      if held {
        holders := holders[found.value := holders[found.value].(preempting := true)];
      }
    }
  }

  lemma {:induction false} WithoutConcat(a: seq<Waiting>, b: seq<Waiting>, id: nat)
    ensures Without(a + b, id) == Without(a, id) + Without(b, id)
  {
    if |b| == 0 {
      assert a + b == a;
    } else {
      assert (a + b)[..|a + b| - 1] == a + b[..|b| - 1] && (a + b)[|a + b| - 1] == b[|b| - 1];
      var last := if b[|b| - 1].id != id then [b[|b| - 1]] else [];
      assert Without(a + b, id) == Without(a + b[..|b| - 1], id) + last;
      assert Without(b, id) == Without(b[..|b| - 1], id) + last;
      WithoutConcat(a, b[..|b| - 1], id);
    }
  }

  lemma {:induction false} WithoutOne(w: Waiting)
    ensures Without([w], w.id) == []
  {
    assert [w][..0] == [];
  }

  /** Removing a request by its place is removing it by its id. */
  lemma {:induction false} TakenOutOf(p: seq<Waiting>, w: Waiting, q: seq<Waiting>)
    requires forall x :: x in p || x in q ==> x.id != w.id
    ensures Without(p + [w] + q, w.id) == p + q
  {
    WithoutOne(w);
    hide Without;
    WithoutConcat(p + [w], q, w.id);
    WithoutConcat(p, [w], w.id);
    NothingTaken(p, w.id);
    NothingTaken(q, w.id);
  }

  lemma {:induction false} NothingTaken(ws: seq<Waiting>, id: nat)
    requires forall i :: 0 <= i < |ws| ==> ws[i].id != id
    ensures Without(ws, id) == ws
  {
    if |ws| > 0 {
      NothingTaken(ws[..|ws| - 1], id);
      assert ws == ws[..|ws| - 1] + [ws[|ws| - 1]];
    }
  }

  lemma {:induction false} TakenOut(s: State, index: nat, id: nat)
    requires Inv(s) && index < |s.waiting| && s.waiting[index].id == id
    ensures s.waiting[..index] + s.waiting[index + 1..] == Without(s.waiting, id)
  {
    DistinctWaiters(s);
    hide Without;
    var p, q := s.waiting[..index], s.waiting[index + 1..];
    assert s.waiting == p + [s.waiting[index]] + q;
    TakenOutOf(p, s.waiting[index], q);
  }

  /** Each holder is under its own machine, and no id holds two. */
  ghost predicate FiledOnce(holders: map<Machine, Holder>) {
    && (forall m :: m in holders ==> holders[m].machine == m)
    && forall m, n :: m in holders && n in holders && m != n ==> holders[m].id != holders[n].id
  }

  /** The freed holder is the one that had the id, if any had. */
  ghost predicate FreedBy(holders: map<Machine, Holder>, id: nat, freed: Option<Holder>) {
    match freed
    case None => forall m :: m in holders ==> holders[m].id != id
    case Some(h) => h.id == id && h.machine in holders && holders[h.machine] == h
  }

  lemma {:induction false} FiledOnceEach(s: State, id: nat)
    requires Inv(s)
    ensures FiledOnce(s.holders) && (id in s.nested ==> FreedBy(s.holders, id, None))
  {
    forall m | m in s.holders
      ensures s.holders[m].machine == m && s.holders[m].id !in s.nested
      ensures forall n :: n in s.holders && m != n ==> s.holders[m].id != s.holders[n].id
    {
      assert HolderOk(s, m);
    }
  }

  lemma {:induction false} OneHolderMarked(s: State, id: nat, found: Option<Machine>)
    requires Inv(s)
    requires found.None? ==> forall m :: m in s.holders ==> s.holders[m].id != id
    requires found.Some? ==> found.value in s.holders && s.holders[found.value].id == id
    ensures MarkPreempted(s.holders, id)
      == if found.Some? then s.holders[found.value := s.holders[found.value].(preempting := true)] else s.holders
  {
    if found.Some? {
      assert HolderOk(s, found.value);
    }
  }
}
