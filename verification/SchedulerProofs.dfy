/** What every run of the scheduler keeps. */
module SchedulerProofs {
  import opened Results
  import opened LeaseQueue
  import opened Scheduler

  // ----- Each operation keeps the invariant --------------------------------

  lemma {:induction false} IdsAreTaken(s: State)
    requires Inv(s)
    ensures forall i :: 0 <= i < |s.waiting| ==> s.waiting[i].id < s.nextId
    ensures forall m :: m in s.holders ==> s.holders[m].id < s.nextId
    ensures forall id :: id in s.issued || id in s.unclaimed ==> id < s.nextId
    ensures s.unclaimed.Keys !! s.claimed
  {
    forall i | 0 <= i < |s.waiting|
      ensures s.waiting[i].id < s.nextId
    {
      assert WaiterOk(s, i);
    }
    forall m | m in s.holders
      ensures s.holders[m].id < s.nextId
    {
      assert HolderOk(s, m);
    }
    forall id | id in s.issued
      ensures id < s.nextId
    {
      assert IssuedOk(s, id);
    }
    forall id | id in s.unclaimed
      ensures id < s.nextId && id !in s.claimed
    {
      assert UnclaimedOk(s, id);
      assert HolderOk(s, s.unclaimed[id].machine);
    }
  }

  lemma {:induction false} QueuedKeepsInv(s: State, r: Request, now: nat)
    requires Inv(s)
    ensures Inv(s.(nextId := s.nextId + 1, waiting := s.waiting + [Waiting(s.nextId, r, now, None)]))
  {
    var t := s.(nextId := s.nextId + 1, waiting := s.waiting + [Waiting(s.nextId, r, now, None)]);
    assert forall id :: Holds(s, id) <==> Holds(t, id);
    forall i | 0 <= i < |t.waiting|
      ensures WaiterOk(t, i)
    {
      if i < |s.waiting| {
        assert WaiterOk(s, i);
      } else {
        IdsAreTaken(s);
      }
    }
    HoldersStay(s, t);
  }

  /** Where holders, grants and tokens are as before, only more ids taken. */
  lemma {:induction false} HoldersStay(s: State, t: State)
    requires Inv(s) && t.holders == s.holders && s.nextId <= t.nextId
    requires t.unclaimed == s.unclaimed && t.issued == s.issued && t.claimed == s.claimed
    requires t.nested.Keys <= s.nested.Keys + {s.nextId} && (t.nested == s.nested || s.nextId < t.nextId)
    ensures forall m :: m in t.holders ==> HolderOk(t, m)
    ensures forall id :: id in t.unclaimed ==> UnclaimedOk(t, id)
    ensures forall id :: id in t.issued ==> IssuedOk(t, id)
    ensures forall id :: id in t.nested ==> id < t.nextId
    ensures forall id :: id in t.claimed ==> id < t.nextId
  {
    forall m | m in t.holders
      ensures HolderOk(t, m)
    {
      assert HolderOk(s, m);
    }
    forall id | id in t.unclaimed
      ensures UnclaimedOk(t, id)
    {
      assert UnclaimedOk(s, id);
    }
    forall id | id in t.issued
      ensures IssuedOk(t, id)
    {
      assert IssuedOk(s, id);
    }
  }

  lemma {:induction false} NestedKeepsInv(s: State, machine: Machine)
    requires Inv(s)
    ensures Inv(s.(nextId := s.nextId + 1, nested := s.nested[s.nextId := machine]))
  {
    var t := s.(nextId := s.nextId + 1, nested := s.nested[s.nextId := machine]);
    HoldersStay(s, t);
    WaitersStay(s, t);
  }

  lemma {:induction false} WaitersStay(s: State, t: State)
    requires Inv(s) && t.waiting == s.waiting && s.nextId <= t.nextId && t.holders.Keys <= s.holders.Keys
    requires forall m :: m in t.holders ==> t.holders[m].id == s.holders[m].id
    requires t.nested.Keys <= s.nested.Keys + {s.nextId} && t.issued == s.issued
    requires t.claimed <= s.claimed + s.unclaimed.Keys && t.unclaimed.Keys <= s.unclaimed.Keys
    ensures forall i :: 0 <= i < |t.waiting| ==> WaiterOk(t, i)
  {
    forall i | 0 <= i < |t.waiting|
      ensures WaiterOk(t, i)
    {
      assert WaiterOk(s, i);
    }
  }

  lemma {:induction false} AdmittedKeepsInv(c: Config, s: State, r: Request, now: nat)
    requires Inv(s)
    ensures Inv(Admitted(c, s, r, now))
  {
    hide Inv;
    var t := Admitted(c, s, r, now);
    match RouteOf(c, s, r)
    case InQueue =>
      QueuedKeepsInv(s, r, now);
      assert t == s.(nextId := s.nextId + 1, waiting := s.waiting + [Waiting(s.nextId, r, now, None)]);
    case Inside =>
      NestedKeepsInv(s, r.machine);
      assert t == s.(nextId := s.nextId + 1, nested := s.nested[s.nextId := r.machine]);
    case Preempted =>
      SkippedKeepsInv(s);
      assert t == s.(nextId := s.nextId + 1);
    case Unknown =>
      assert t == s;
  }

  lemma {:induction false} SkippedKeepsInv(s: State)
    requires Inv(s)
    ensures Inv(s.(nextId := s.nextId + 1))
  {
    var t := s.(nextId := s.nextId + 1);
    HoldersStay(s, t);
    WaitersStay(s, t);
  }

  ghost predicate DistinctIds(ws: seq<Waiting>) {
    forall i, j :: 0 <= i < j < |ws| ==> ws[i].id != ws[j].id
  }

  lemma {:induction false} WithoutKeepsDistinct(ws: seq<Waiting>, id: nat)
    requires DistinctIds(ws)
    ensures DistinctIds(Without(ws, id))
  {
    if |ws| > 0 {
      var front, last := ws[..|ws| - 1], ws[|ws| - 1];
      WithoutKeepsDistinct(front, id);
      var r := Without(front, id);
      forall i | 0 <= i < |r|
        ensures r[i].id != last.id
      {
        assert r[i] in front;
      }
      assert Without(ws, id) == r + if last.id != id then [last] else [];
    }
  }

  lemma {:induction false} DistinctWaiters(s: State)
    requires Inv(s)
    ensures DistinctIds(s.waiting)
  {
    forall i, j | 0 <= i < j < |s.waiting|
      ensures s.waiting[i].id != s.waiting[j].id
    {
      assert WaiterOk(s, i);
    }
  }

  /** Fewer wait, nobody new; the others' ids stay where they were. */
  lemma {:induction false} FewerWait(s: State, t: State, id: nat)
    requires Inv(s) && t.waiting == Without(s.waiting, id) && t.nextId == s.nextId
    requires t.nested.Keys <= s.nested.Keys && t.claimed == s.claimed
    requires forall k :: k in t.issued || k in t.unclaimed || Holds(t, k) ==>
      k == id || k in s.issued || k in s.unclaimed || Holds(s, k)
    ensures forall i :: 0 <= i < |t.waiting| ==> WaiterOk(t, i)
  {
    DistinctWaiters(s);
    WithoutKeepsDistinct(s.waiting, id);
    forall i | 0 <= i < |t.waiting|
      ensures WaiterOk(t, i)
    {
      assert t.waiting[i] in s.waiting;
      var j :| 0 <= j < |s.waiting| && s.waiting[j] == t.waiting[i];
      assert WaiterOk(s, j);
    }
  }

  lemma {:induction false} GrantedHolders(c: Config, s: State, machine: Machine, now: nat, w: Waiting, k: nat)
    requires Inv(s) && k < |s.waiting| && s.waiting[k] == w && machine !in s.holders
    ensures forall m :: m in GrantedTo(c, s, machine, now, w).holders ==> HolderOk(GrantedTo(c, s, machine, now, w), m)
  {
    hide Without, Jobs, NextSeed, TokenText;
    var t := GrantedTo(c, s, machine, now, w);
    assert WaiterOk(s, k);
    forall m | m in t.holders
      ensures HolderOk(t, m)
    {
      if m != machine {
        assert HolderOk(s, m);
      }
    }
  }

  lemma {:induction false} GrantedGrants(c: Config, s: State, machine: Machine, now: nat, w: Waiting)
    requires Inv(s) && w.id !in s.claimed && machine !in s.holders
    ensures forall id :: id in GrantedTo(c, s, machine, now, w).unclaimed ==> UnclaimedOk(GrantedTo(c, s, machine, now, w), id)
  {
    hide Without, Jobs, NextSeed, TokenText;
    var t := GrantedTo(c, s, machine, now, w);
    forall id | id in t.unclaimed
      ensures UnclaimedOk(t, id)
    {
      if id != w.id {
        assert UnclaimedOk(s, id);
      }
    }
  }

  lemma {:induction false} GrantedTokens(c: Config, s: State, machine: Machine, now: nat, w: Waiting)
    requires Inv(s) && w.id < s.nextId && w.id !in s.issued
    ensures forall id :: id in GrantedTo(c, s, machine, now, w).issued ==> IssuedOk(GrantedTo(c, s, machine, now, w), id)
  {
    hide Without, Jobs, NextSeed, TokenText;
    var t := GrantedTo(c, s, machine, now, w);
    forall id | id in t.issued
      ensures IssuedOk(t, id)
    {
      if id in s.issued {
        assert IssuedOk(s, id);
      }
    }
  }

  lemma {:induction false} GrantedWaiters(c: Config, s: State, machine: Machine, now: nat, w: Waiting)
    requires Inv(s)
    ensures var t := GrantedTo(c, s, machine, now, w); forall i :: 0 <= i < |t.waiting| ==> WaiterOk(t, i)
  {
    hide Without, Jobs, NextSeed, TokenText;
    var t := GrantedTo(c, s, machine, now, w);
    forall id | Holds(t, id)
      ensures id == w.id || Holds(s, id)
    {
      var m :| m in t.holders && t.holders[m].id == id;
      assert m != machine ==> m in s.holders && s.holders[m].id == id;
    }
    FewerWait(s, t, w.id);
  }

  lemma {:induction false} GrantedToKeepsInv(c: Config, s: State, machine: Machine, now: nat, w: Waiting)
    requires Inv(s) && w in s.waiting && machine !in s.holders
    ensures Inv(GrantedTo(c, s, machine, now, w))
  {
    hide WaiterOk, HolderOk, UnclaimedOk, IssuedOk, Without, Jobs, NextSeed, TokenText;
    var k :| 0 <= k < |s.waiting| && s.waiting[k] == w;
    WaiterIsNew(s, k);
    GrantedWaiters(c, s, machine, now, w);
    GrantedHolders(c, s, machine, now, w, k);
    GrantedGrants(c, s, machine, now, w);
    GrantedTokens(c, s, machine, now, w);
  }

  lemma {:induction false} WaiterIsNew(s: State, k: nat)
    requires Inv(s) && k < |s.waiting|
    ensures s.waiting[k].id < s.nextId && s.waiting[k].id !in s.claimed && s.waiting[k].id !in s.issued
  {
    assert WaiterOk(s, k);
  }

  lemma {:induction false} GrantedKeepsInv(c: Config, s: State, machine: Machine, now: nat)
    requires Inv(s)
    ensures Inv(Granted(c, s, machine, now))
  {
    hide Inv, Order, GrantedTo;
    var w := Chosen(s, machine, now);
    if w.Some? {
      OrderIsAPermutation(s.mergeQueue, s.waiting, machine);
      GrantedToKeepsInv(c, s, machine, now, w.value);
    }
  }

  lemma {:induction false} GrantedAllKeepsInv(c: Config, s: State, machines: seq<Machine>, now: nat)
    requires Inv(s)
    ensures Inv(GrantedAll(c, s, machines, now))
  {
    hide Inv, Granted;
    if |machines| > 0 {
      var front := machines[..|machines| - 1];
      GrantedAllKeepsInv(c, s, front, now);
      GrantedKeepsInv(c, GrantedAll(c, s, front, now), machines[|machines| - 1], now);
    }
  }

  lemma {:induction false} ClaimedKeepsInv(s: State, id: nat)
    requires Inv(s)
    ensures Inv(Claimed(s, id))
  {
    var t := Claimed(s, id);
    WaitersStay(s, t);
    if id in s.unclaimed {
      assert UnclaimedOk(s, id) && HolderOk(s, s.unclaimed[id].machine);
    }
    forall m | m in t.holders
      ensures HolderOk(t, m)
    {
      assert HolderOk(s, m);
    }
    forall k | k in t.unclaimed
      ensures UnclaimedOk(t, k)
    {
      assert UnclaimedOk(s, k);
    }
    forall k | k in t.issued
      ensures IssuedOk(t, k)
    {
      assert IssuedOk(s, k);
    }
  }

  lemma {:induction false} ReleasedWaiters(s: State, id: nat)
    requires Inv(s)
    ensures var t := Released(s, id); forall i :: 0 <= i < |t.waiting| ==> WaiterOk(t, i)
  {
    hide Without;
    var t := Released(s, id);
    forall k | Holds(t, k)
      ensures Holds(s, k)
    {
      var m :| m in t.holders && t.holders[m].id == k;
      assert m in s.holders;
    }
    FewerWait(s, t, id);
  }

  lemma {:induction false} ReleasedKeepsInv(s: State, id: nat)
    requires Inv(s)
    ensures Inv(Released(s, id))
  {
    hide Without, WaiterOk, TokenText;
    var t := Released(s, id);
    ReleasedWaiters(s, id);
    forall m | m in t.holders
      ensures HolderOk(t, m)
    {
      assert HolderOk(s, m);
    }
    forall k | k in t.unclaimed
      ensures UnclaimedOk(t, k)
    {
      assert UnclaimedOk(s, k);
    }
    forall k | k in t.issued
      ensures IssuedOk(t, k)
    {
      assert IssuedOk(s, k);
    }
  }

  lemma {:induction false} MovedKeepsInv(s: State, id: nat, position: nat)
    requires Inv(s)
    ensures Inv(s.(waiting := MovedTo(s.waiting, id, position)))
  {
    var t := s.(waiting := MovedTo(s.waiting, id, position));
    assert forall k :: Holds(s, k) <==> Holds(t, k);
    forall i | 0 <= i < |t.waiting|
      ensures WaiterOk(t, i)
    {
      assert WaiterOk(s, i);
    }
    HoldersStay(s, t);
  }

  /** Marking holders changes neither who they are nor their tokens. */
  lemma {:induction false} MarkedKeepsInv(s: State, holders: map<Machine, Holder>)
    requires Inv(s) && holders.Keys == s.holders.Keys
    requires forall m :: m in holders ==>
      holders[m].id == s.holders[m].id && holders[m].machine == s.holders[m].machine && holders[m].token == s.holders[m].token
    ensures Inv(s.(holders := holders))
  {
    var t := s.(holders := holders);
    WaitersStay(s, t);
    forall m | m in t.holders
      ensures HolderOk(t, m)
    {
      assert HolderOk(s, m);
    }
    forall id | id in t.unclaimed
      ensures UnclaimedOk(t, id)
    {
      assert UnclaimedOk(s, id);
    }
    forall id | id in t.issued
      ensures IssuedOk(t, id)
    {
      assert IssuedOk(s, id);
    }
  }

  lemma {:induction false} ConfiguredKeepsInv(s: State, t: State)
    requires Inv(s) && t == s.(paused := t.paused, reserved := t.reserved, ci := t.ci, mergeQueue := t.mergeQueue)
    ensures Inv(t)
  {
    HoldersStay(s, t);
    WaitersStay(s, t);
  }

  lemma {:induction false} ApplyKeepsInv(c: Config, s: State, op: Op)
    requires Inv(s)
    ensures Inv(Apply(c, s, op))
  {
    hide Inv, GrantedAll, Released, Claimed, Admitted, MovedTo;
    match op
    case Admit(r, now) => AdmittedKeepsInv(c, s, r, now);
    case Grants(now) => GrantedAllKeepsInv(c, s, c.machines, now);
    case Claim(id) => ClaimedKeepsInv(s, id);
    case Release(id) => ReleasedKeepsInv(s, id);
    case Reorder(id, position) => MovedKeepsInv(s, id, position);
    case Preempt(id) => MarkedKeepsInv(s, MarkPreempted(s.holders, id));
    case Report(now) => MarkedKeepsInv(s, MarkOverruns(s.holders, now));
    case Configure(_, _, _, _) => ConfiguredKeepsInv(s, Apply(c, s, op));
  }

  // ----- Runs --------------------------------------------------------------

  ghost predicate IsRun(c: Config, states: seq<State>, ops: seq<Op>) {
    && |states| == |ops| + 1 && Initial(states[0])
    && forall i :: 0 <= i < |ops| ==> states[i + 1] == Apply(c, states[i], ops[i])
  }

  /** Over every run: each id is in at most one place, each machine has at most
      one holder, filed under that machine, and unclaimed grants belong to the
      current holder of their machine. */
  lemma {:induction false} RunKeepsInv(c: Config, states: seq<State>, ops: seq<Op>, n: nat)
    requires IsRun(c, states, ops) && n < |states|
    ensures Inv(states[n])
  {
    hide Inv, Apply;
    if n == 0 {
      StartIsOk(states[0]);
    } else {
      RunKeepsInv(c, states, ops, n - 1);
      assert states[n - 1 + 1] == Apply(c, states[n - 1], ops[n - 1]);
      ApplyKeepsInv(c, states[n - 1], ops[n - 1]);
    }
  }

  lemma {:induction false} StartIsOk(s: State)
    requires Initial(s)
    ensures Inv(s)
  {
  }

  lemma {:induction false} OnePlaceEach(c: Config, states: seq<State>, ops: seq<Op>, n: nat, id: nat)
    requires IsRun(c, states, ops) && n < |states|
    ensures var s := states[n];
      && !(Waits(s, id) && Holds(s, id)) && !(Waits(s, id) && id in s.nested) && !(Holds(s, id) && id in s.nested)
      && (forall m :: m in s.holders ==> s.holders[m].machine == m)
      && (id in s.unclaimed ==> s.unclaimed[id].machine in s.holders && s.holders[s.unclaimed[id].machine].id == id)
  {
    RunKeepsInv(c, states, ops, n);
    var s := states[n];
    if Waits(s, id) {
      var i :| 0 <= i < |s.waiting| && s.waiting[i].id == id;
      assert WaiterOk(s, i);
    }
    if Holds(s, id) {
      var m :| m in s.holders && s.holders[m].id == id;
      assert HolderOk(s, m);
    }
    forall m | m in s.holders
      ensures s.holders[m].machine == m
    {
      assert HolderOk(s, m);
    }
    if id in s.unclaimed {
      assert UnclaimedOk(s, id);
    }
  }

  // ----- Ended means gone --------------------------------------------------

  /** After a release the id is nowhere, whatever state it was in. */
  lemma {:induction false} ReleasedIsGone(s: State, id: nat)
    requires Inv(s)
    ensures Gone(Released(s, id), id)
  {
    hide Without;
    var t := Released(s, id);
    forall i | 0 <= i < |t.waiting|
      ensures t.waiting[i].id != id
    {
      assert t.waiting[i] in t.waiting;
    }
    forall m | m in t.holders
      ensures t.holders[m].id != id
    {
      assert HolderOk(s, m);
    }
  }

  lemma {:induction false} GrantedLeavesGone(c: Config, s: State, machine: Machine, now: nat, id: nat)
    requires Gone(s, id)
    ensures Gone(Granted(c, s, machine, now), id) && Granted(c, s, machine, now).nextId == s.nextId
  {
    hide Order, Without;
    var t := Granted(c, s, machine, now);
    OrderIsAPermutation(s.mergeQueue, s.waiting, machine);
    forall i | 0 <= i < |t.waiting|
      ensures t.waiting[i].id != id
    {
      assert t.waiting[i] in s.waiting;
    }
    var w := Chosen(s, machine, now);
    if w.Some? {
      assert w.value in s.waiting;
      assert w.value.id != id;
    }
    forall m | m in t.holders
      ensures t.holders[m].id != id
    {
      assert m != machine || w.None? ==> m in s.holders;
    }
  }

  lemma {:induction false} GrantedAllLeavesGone(c: Config, s: State, machines: seq<Machine>, now: nat, id: nat)
    requires Gone(s, id)
    ensures Gone(GrantedAll(c, s, machines, now), id) && GrantedAll(c, s, machines, now).nextId == s.nextId
  {
    hide Gone, Granted;
    if |machines| > 0 {
      var front := machines[..|machines| - 1];
      GrantedAllLeavesGone(c, s, front, now, id);
      GrantedLeavesGone(c, GrantedAll(c, s, front, now), machines[|machines| - 1], now, id);
    }
  }

  /** An id that was given out and is gone never comes back. */
  lemma {:induction false} GoneStaysGone(c: Config, s: State, op: Op, id: nat)
    requires Gone(s, id) && id < s.nextId
    ensures Gone(Apply(c, s, op), id) && id < Apply(c, s, op).nextId
  {
    hide Without, GrantedAll;
    var t := Apply(c, s, op);
    if op.Grants? {
      GrantedAllLeavesGone(c, s, c.machines, op.now, id);
    } else {
      forall i | 0 <= i < |t.waiting|
        ensures t.waiting[i].id != id
      {
        if op.Release? {
          assert t.waiting[i] in t.waiting;
          assert t.waiting[i] in s.waiting;
        } else if i < |s.waiting| {
          assert s.waiting[i].id != id;
        }
      }
      assert forall m :: m in t.holders ==> m in s.holders && t.holders[m].id == s.holders[m].id;
    }
  }

  lemma {:induction false} ReleasedForever(c: Config, states: seq<State>, ops: seq<Op>, i: nat, j: nat)
    requires IsRun(c, states, ops) && i < j < |states| && ops[i].Release? && ops[i].id < states[i].nextId
    ensures Gone(states[j], ops[i].id) && ops[i].id < states[j].nextId
  {
    hide Inv, Gone;
    assert states[j - 1 + 1] == Apply(c, states[j - 1], ops[j - 1]);
    if j == i + 1 {
      RunKeepsInv(c, states, ops, i);
      ReleasedIsGone(states[i], ops[i].id);
    } else {
      ReleasedForever(c, states, ops, i, j - 1);
      GoneStaysGone(c, states[j - 1], ops[j - 1], ops[i].id);
    }
  }

  // ----- Claimed once, tokens distinct -------------------------------------

  ghost predicate Remembers(s: State, t: State) {
    s.claimed <= t.claimed && forall id :: id in s.issued ==> id in t.issued && t.issued[id] == s.issued[id]
  }

  lemma {:induction false} GrantedRemembers(c: Config, s: State, machine: Machine, now: nat)
    requires Inv(s)
    ensures Remembers(s, Granted(c, s, machine, now))
  {
    hide Order, Without, FirstEligible, Jobs, TokenText, Inv;
    var w := Chosen(s, machine, now);
    if w.Some? {
      ChosenIsWaiting(s, machine, now);
      var k :| 0 <= k < |s.waiting| && s.waiting[k] == w.value;
      WaiterIsNew(s, k);
    }
  }

  lemma {:induction false} ChosenIsWaiting(s: State, machine: Machine, now: nat)
    ensures Chosen(s, machine, now).Some? ==> Chosen(s, machine, now).value in s.waiting
  {
    hide Order;
    OrderIsAPermutation(s.mergeQueue, s.waiting, machine);
  }

  lemma {:induction false} GrantedAllRemembers(c: Config, s: State, machines: seq<Machine>, now: nat)
    requires Inv(s)
    ensures Remembers(s, GrantedAll(c, s, machines, now))
  {
    hide Inv, Granted;
    if |machines| > 0 {
      var front := machines[..|machines| - 1];
      GrantedAllKeepsInv(c, s, front, now);
      GrantedAllRemembers(c, s, front, now);
      GrantedRemembers(c, GrantedAll(c, s, front, now), machines[|machines| - 1], now);
    }
  }

  lemma {:induction false} ApplyRemembers(c: Config, s: State, op: Op)
    requires Inv(s)
    ensures Remembers(s, Apply(c, s, op))
  {
    hide Inv, GrantedAll;
    if op.Grants? {
      GrantedAllRemembers(c, s, c.machines, op.now);
    }
  }

  lemma {:induction false} RemembersItself(s: State)
    ensures Remembers(s, s)
  {
  }

  lemma {:induction false} RemembersOn(s: State, t: State, u: State)
    requires Remembers(s, t) && Remembers(t, u)
    ensures Remembers(s, u)
  {
  }

  lemma {:induction false} RunRemembers(c: Config, states: seq<State>, ops: seq<Op>, i: nat, j: nat)
    requires IsRun(c, states, ops) && i <= j < |states|
    ensures Remembers(states[i], states[j])
  {
    hide Inv, Apply, Remembers, Initial;
    if i == j {
      RemembersItself(states[i]);
    } else {
      RunRemembers(c, states, ops, i, j - 1);
      RunKeepsInv(c, states, ops, j - 1);
      assert states[j - 1 + 1] == Apply(c, states[j - 1], ops[j - 1]);
      ApplyRemembers(c, states[j - 1], ops[j - 1]);
      RemembersOn(states[i], states[j - 1], states[j]);
    }
  }

  /** A grant is claimed at most once. */
  lemma {:induction false} ClaimedOnce(c: Config, states: seq<State>, ops: seq<Op>, i: nat, j: nat)
    requires IsRun(c, states, ops) && i < j < |ops|
    requires ops[i].Claim? && ops[j] == ops[i] && ops[i].id in states[i].unclaimed
    ensures ops[j].id !in states[j].unclaimed
  {
    hide GrantedAll, Granted, Admitted, Released;
    RunRemembers(c, states, ops, i + 1, j);
    assert states[i + 1] == Apply(c, states[i], ops[i]);
    RunKeepsInv(c, states, ops, j);
    IdsAreTaken(states[j]);
  }

  /** No two sessions, however far apart in time, have the same token. */
  lemma {:induction false} SessionsNeverShareTokens(c: Config, states: seq<State>, ops: seq<Op>, i: nat, j: nat, m: Machine, n: Machine)
    requires IsRun(c, states, ops) && i <= j < |states|
    requires m in states[i].holders && states[i].holders[m].token.Some?
    requires n in states[j].holders && states[j].holders[n].token == states[i].holders[m].token
    ensures states[j].holders[n].id == states[i].holders[m].id
  {
    hide TokenText;
    RunRemembers(c, states, ops, i, j);
    RunKeepsInv(c, states, ops, i);
    RunKeepsInv(c, states, ops, j);
    assert HolderOk(states[i], m) && HolderOk(states[j], n);
    var a, b := states[i].holders[m].id, states[j].holders[n].id;
    assert IssuedOk(states[j], a) && IssuedOk(states[j], b);
    var x: nat :| states[j].issued[a] == TokenText(a, x);
    var y: nat :| states[j].issued[b] == TokenText(b, y);
    TokensNameTheirId(a, b, x, y);
  }

  // ----- Grants leave nobody out -------------------------------------------

  /** Nothing more to grant on a machine. */
  ghost predicate Settled(s: State, m: Machine, now: nat) {
    m in s.holders || m in s.paused
    || forall w :: w in s.waiting && IsFor(w, m) ==> !Eligible(ReservationAt(s, m, now), w)
  }

  lemma {:induction false} GrantedSettles(c: Config, s: State, m: Machine, now: nat)
    ensures Settled(Granted(c, s, m, now), m, now)
  {
    hide Order, Without, Contains;
    OrderIsAPermutation(s.mergeQueue, s.waiting, m);
  }

  lemma {:induction false} GrantedKeepsSettled(c: Config, s: State, n: Machine, m: Machine, now: nat)
    requires Settled(s, m, now)
    ensures Settled(Granted(c, s, n, now), m, now)
  {
    hide Order, Without, Contains;
  }

  /** A call to grant leaves no free, unpaused, known machine with a request
      that could be granted. */
  lemma {:induction false} GrantedAllSettles(c: Config, s: State, machines: seq<Machine>, now: nat)
    ensures forall m :: m in machines ==> Settled(GrantedAll(c, s, machines, now), m, now)
  {
    hide Settled, Granted;
    if |machines| > 0 {
      var front, last := machines[..|machines| - 1], machines[|machines| - 1];
      var before := GrantedAll(c, s, front, now);
      GrantedAllSettles(c, s, front, now);
      GrantedSettles(c, before, last, now);
      forall m | m in machines
        ensures Settled(GrantedAll(c, s, machines, now), m, now)
      {
        if m != last {
          assert m in front;
          GrantedKeepsSettled(c, before, last, m, now);
        }
      }
    }
  }

  /** The chosen request is the first in grant order that the reservation
      admits. */
  lemma {:induction false} ChoosesTheFirst(order: seq<Waiting>, reservation: Option<string>) returns (k: nat)
    requires FirstEligible(order, reservation).Some?
    ensures k < |order| && order[k] == FirstEligible(order, reservation).value && Eligible(reservation, order[k])
    ensures forall j :: 0 <= j < k ==> !Eligible(reservation, order[j])
  {
    if Eligible(reservation, order[0]) {
      k := 0;
    } else {
      var i := ChoosesTheFirst(order[1..], reservation);
      k := i + 1;
      forall j | 0 <= j < k
        ensures !Eligible(reservation, order[j])
      {
        assert j > 0 ==> order[j] == order[1..][j - 1];
      }
    }
  }
}
