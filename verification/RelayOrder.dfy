/**
 Background work in acceptance order: every item gets a sequence number, and a
 waiter holding a horizon proceeds once no item begun before it is open.
 */
module RelayOrder {

  datatype Order = Order(next: nat, open: set<nat>, version: nat) {

    ghost predicate Valid() {
      forall q :: q in open ==> q < next
    }

    /** No item begun before the horizon is still open. */
    predicate Passed(horizon: nat) {
      forall q :: q in open ==> horizon <= q
    }

    function Begun(): Order {
      this.(next := next + 1, open := open + {next})
    }

    /** Finishing is two steps: the item leaves, then the waiters are told. */
    function Left(q: nat): Order {
      this.(open := open - {q})
    }

    function Told(): Order {
      this.(version := version + 1)
    }
  }

  const EMPTY_ORDER := Order(0, {}, 0)

  /** Everything that can happen to an order. */
  ghost predicate Follows(o: Order, p: Order) {
    p == o || p == o.Begun() || p == o.Told() || exists q :: p == o.Left(q)
  }

  /** A horizon that was passed stays passed, whatever begins or ends later. */
  lemma {:induction false} PassedStays(o: Order, p: Order, horizon: nat)
    requires o.Valid() && Follows(o, p) && horizon <= o.next && o.Passed(horizon)
    ensures p.Valid() && horizon <= p.next && p.Passed(horizon)
  {
  }

  lemma {:induction false} PassedStaysForever(run: seq<Order>, i: nat, j: nat, horizon: nat)
    requires i <= j < |run| && run[i].Valid()
    requires forall k :: 0 <= k < |run| - 1 ==> Follows(run[k], run[k + 1])
    requires horizon <= run[i].next && run[i].Passed(horizon)
    ensures run[j].Valid() && horizon <= run[j].next && run[j].Passed(horizon)
  {
    if i < j {
      PassedStaysForever(run, i, j - 1, horizon);
      assert Follows(run[j - 1], run[j - 1 + 1]);
      PassedStays(run[j - 1], run[j], horizon);
    }
  }

  /** The lock-protected counter and open set of the relay. */
  class OrderLock {
    var next: nat
    var open: set<nat>
    var version: nat

    ghost function Value(): Order
      reads this
    {
      Order(next, open, version)
    }

    constructor ()
      ensures Value() == EMPTY_ORDER
    {
      next, open, version := 0, {}, 0;
    }

    method Begin() returns (sequence: nat)
      modifies this
      ensures sequence == old(next) && Value() == old(Value()).Begun()
    {
      sequence := next;
      next := next + 1;
      open := open + {sequence};
    }

    method Horizon() returns (horizon: nat)
      ensures horizon == next
    {
      horizon := next;
    }

    method Finish(sequence: nat)
      modifies this
      ensures Value() == old(Value()).Left(sequence).Told()
    {
      open := open - {sequence};
      version := version + 1;
    }

    /** Looks only at the smallest open item, as an ordered set does. */
    method HasPassed(horizon: nat) returns (passed: bool)
      ensures passed <==> Value().Passed(horizon)
    {
      if open == {} {
        return true;
      }
      var first := First();
      passed := first >= horizon;
    }

    method First() returns (first: nat)
      requires open != {}
      ensures first in open && forall q :: q in open ==> first <= q
    {
      first :| first in open;
      var rest := open - {first};
      while rest != {}
        invariant rest <= open && first in open
        invariant forall q :: q in open && q !in rest ==> first <= q
        decreases |rest|
      {
        var q :| q in rest;
        if q < first {
          first := q;
        }
        rest := rest - {q};
      }
    }
  }
}
