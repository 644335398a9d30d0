/**
 The order in which a machine's waiting requests are granted: by priority,
 merge-queue rank, arrival and id, with the requests an administrator moved
 inserted at the positions they were moved to.
 */
module LeaseQueue {
  import opened Results

  datatype Machine = Machine(name: string)

  const USIZE_MAX: nat := 0xFFFF_FFFF_FFFF_FFFF

  datatype Request = Request(
    machine: Machine,
    title: string,
    priority: int,
    pr: Option<nat>,
    estimateSecs: nat,
    session: bool,
    token: Option<string>)

  datatype Waiting = Waiting(id: nat, request: Request, since: nat, manual: Option<nat>)

  // ----- Sorting -----------------------------------------------------------

  datatype Ordering = ByRank(mergeQueue: map<nat, nat>) | ByPosition

  datatype SortKey = SortKey(first: int, second: int, third: int, fourth: int)

  function MergeRank(mergeQueue: map<nat, nat>, pr: Option<nat>): nat {
    if pr.Some? && pr.value in mergeQueue then mergeQueue[pr.value] else USIZE_MAX
  }

  function KeyOf(o: Ordering, w: Waiting): SortKey {
    match o
    case ByRank(queue) => SortKey(-w.request.priority, MergeRank(queue, w.request.pr), w.since, w.id)
    case ByPosition => SortKey(if w.manual.Some? then w.manual.value else -1, w.id, 0, 0)
  }

  predicate Less(a: SortKey, b: SortKey) {
    a.first < b.first || (a.first == b.first && (
      a.second < b.second || (a.second == b.second && (
        a.third < b.third || (a.third == b.third && a.fourth < b.fourth)))))
  }

  ghost predicate Sorted(o: Ordering, ws: seq<Waiting>) {
    forall i, j :: 0 <= i < j < |ws| ==> !Less(KeyOf(o, ws[j]), KeyOf(o, ws[i]))
  }

  /** Into a sorted list, after what does not come later: a stable sort. */
  function Placed(o: Ordering, ws: seq<Waiting>, w: Waiting): (r: seq<Waiting>)
    ensures multiset(r) == multiset(ws) + multiset{w}
  {
    if |ws| == 0 || !Less(KeyOf(o, w), KeyOf(o, ws[|ws| - 1])) then ws + [w]
    else
      assert ws == ws[..|ws| - 1] + [ws[|ws| - 1]];
      Placed(o, ws[..|ws| - 1], w) + [ws[|ws| - 1]]
  }

  function Sort(o: Ordering, ws: seq<Waiting>): (r: seq<Waiting>)
    ensures multiset(r) == multiset(ws)
  {
    if |ws| == 0 then [] else
      assert ws == ws[..|ws| - 1] + [ws[|ws| - 1]];
      Placed(o, Sort(o, ws[..|ws| - 1]), ws[|ws| - 1])
  }

  lemma {:induction false} PlacedStaysSorted(o: Ordering, ws: seq<Waiting>, w: Waiting)
    requires Sorted(o, ws)
    ensures Sorted(o, Placed(o, ws, w))
  {
    if |ws| > 0 && Less(KeyOf(o, w), KeyOf(o, ws[|ws| - 1])) {
      var front, last := ws[..|ws| - 1], ws[|ws| - 1];
      PlacedStaysSorted(o, front, w);
      var r := Placed(o, front, w);
      forall i | 0 <= i < |r|
        ensures !Less(KeyOf(o, last), KeyOf(o, r[i]))
      {
        assert r[i] in multiset(r);
        if r[i] != w {
          assert r[i] in front;
        }
      }
    }
  }

  lemma {:induction false} SortSorts(o: Ordering, ws: seq<Waiting>)
    ensures Sorted(o, Sort(o, ws))
  {
    if |ws| > 0 {
      SortSorts(o, ws[..|ws| - 1]);
      PlacedStaysSorted(o, Sort(o, ws[..|ws| - 1]), ws[|ws| - 1]);
    }
  }

  // ----- Filters -----------------------------------------------------------

  predicate IsFor(w: Waiting, machine: Machine) {
    w.request.machine == machine
  }

  function For(ws: seq<Waiting>, machine: Machine): (r: seq<Waiting>)
    ensures forall w :: w in r <==> w in ws && IsFor(w, machine)
  {
    if |ws| == 0 then [] else
      var last := ws[|ws| - 1];
      assert ws == ws[..|ws| - 1] + [last];
      For(ws[..|ws| - 1], machine) + if IsFor(last, machine) then [last] else []
  }

  function Unmoved(ws: seq<Waiting>): (r: seq<Waiting>)
    ensures forall w :: w in r <==> w in ws && w.manual.None?
  {
    if |ws| == 0 then [] else
      var last := ws[|ws| - 1];
      assert ws == ws[..|ws| - 1] + [last];
      Unmoved(ws[..|ws| - 1]) + if last.manual.None? then [last] else []
  }

  function MovedOnes(ws: seq<Waiting>): (r: seq<Waiting>)
    ensures forall w :: w in r <==> w in ws && w.manual.Some?
  {
    if |ws| == 0 then [] else
      var last := ws[|ws| - 1];
      assert ws == ws[..|ws| - 1] + [last];
      MovedOnes(ws[..|ws| - 1]) + if last.manual.Some? then [last] else []
  }

  lemma {:induction false} UnmovedConcat(a: seq<Waiting>, b: seq<Waiting>)
    ensures Unmoved(a + b) == Unmoved(a) + Unmoved(b)
  {
    if |b| == 0 {
      assert a + b == a;
    } else {
      assert (a + b)[..|a + b| - 1] == a + b[..|b| - 1];
      UnmovedConcat(a, b[..|b| - 1]);
    }
  }

  lemma {:induction false} AllUnmoved(ws: seq<Waiting>)
    requires forall w :: w in ws ==> w.manual.None?
    ensures Unmoved(ws) == ws
  {
    if |ws| > 0 {
      AllUnmoved(ws[..|ws| - 1]);
      assert ws == ws[..|ws| - 1] + [ws[|ws| - 1]];
    }
  }

  lemma {:induction false} CountLast(ws: seq<Waiting>)
    requires |ws| > 0
    ensures multiset(ws) == multiset(ws[..|ws| - 1]) + multiset{ws[|ws| - 1]}
  {
    assert ws == ws[..|ws| - 1] + [ws[|ws| - 1]];
  }

  lemma {:induction false} CountAppended(ws: seq<Waiting>, w: Waiting)
    ensures multiset(ws + [w]) == multiset(ws) + multiset{w} && ws + [] == ws
  {
  }

  lemma {:induction false} FilteredLast(ws: seq<Waiting>)
    requires |ws| > 0
    ensures var front, last := ws[..|ws| - 1], ws[|ws| - 1];
      && Unmoved(ws) == Unmoved(front) + (if last.manual.None? then [last] else [])
      && MovedOnes(ws) == MovedOnes(front) + (if last.manual.Some? then [last] else [])
  {
  }

  lemma {:induction false} SplitByManual(ws: seq<Waiting>)
    ensures multiset(ws) == multiset(Unmoved(ws)) + multiset(MovedOnes(ws))
  {
    hide Unmoved, MovedOnes;
    if |ws| > 0 {
      var front, last := ws[..|ws| - 1], ws[|ws| - 1];
      SplitByManual(front);
      CountLast(ws);
      FilteredLast(ws);
      CountAppended(Unmoved(front), last);
      CountAppended(MovedOnes(front), last);
    } else {
      NothingFiltered(ws);
    }
  }

  lemma {:induction false} NothingFiltered(ws: seq<Waiting>)
    requires |ws| == 0
    ensures Unmoved(ws) == [] && MovedOnes(ws) == [] && ws == []
  {
  }

  // ----- The order ---------------------------------------------------------

  function Min(a: nat, b: nat): nat {
    if a < b then a else b
  }

  function InsertAt(ws: seq<Waiting>, at: nat, w: Waiting): seq<Waiting>
    requires at <= |ws|
  {
    ws[..at] + [w] + ws[at..]
  }

  predicate AreMoved(ws: seq<Waiting>) {
    forall k :: 0 <= k < |ws| ==> ws[k].manual.Some?
  }

  function InsertAll(automatic: seq<Waiting>, manual: seq<Waiting>): (r: seq<Waiting>)
    requires AreMoved(manual)
    ensures |r| == |automatic| + |manual|
  {
    if |manual| == 0 then automatic else
      var before := InsertAll(automatic, manual[..|manual| - 1]);
      var last := manual[|manual| - 1];
      InsertAt(before, Min(last.manual.value, |before|), last)
  }

  function AutomaticFor(queue: map<nat, nat>, ws: seq<Waiting>, machine: Machine): seq<Waiting> {
    Sort(ByRank(queue), Unmoved(For(ws, machine)))
  }

  function ManualFor(ws: seq<Waiting>, machine: Machine): (r: seq<Waiting>)
    ensures AreMoved(r)
  {
    var r := Sort(ByPosition, MovedOnes(For(ws, machine)));
    assert forall k :: 0 <= k < |r| ==> r[k] in multiset(r);
    r
  }

  /** A machine's requests in grant order. */
  function Order(queue: map<nat, nat>, ws: seq<Waiting>, machine: Machine): seq<Waiting> {
    InsertAll(AutomaticFor(queue, ws, machine), ManualFor(ws, machine))
  }

  lemma {:induction false} InsertAtAdds(ws: seq<Waiting>, at: nat, w: Waiting)
    requires at <= |ws|
    ensures multiset(InsertAt(ws, at, w)) == multiset(ws) + multiset{w}
  {
    assert ws == ws[..at] + ws[at..];
  }

  lemma {:induction false} InsertAllKeepsAll(automatic: seq<Waiting>, manual: seq<Waiting>)
    requires AreMoved(manual)
    ensures multiset(InsertAll(automatic, manual)) == multiset(automatic) + multiset(manual)
  {
    hide InsertAt;
    if |manual| > 0 {
      var front, last := manual[..|manual| - 1], manual[|manual| - 1];
      InsertAllKeepsAll(automatic, front);
      var before := InsertAll(automatic, front);
      InsertAtAdds(before, Min(last.manual.value, |before|), last);
      assert manual == front + [last];
    }
  }

  lemma {:induction false} SameMembers(a: seq<Waiting>, b: seq<Waiting>)
    requires multiset(a) == multiset(b)
    ensures forall w :: w in a <==> w in b
  {
    forall w
      ensures w in a <==> w in b
    {
      assert w in a <==> w in multiset(a);
      assert w in b <==> w in multiset(b);
    }
  }

  /** Nobody is dropped, invented or repeated. */
  lemma {:induction false} OrderIsAPermutation(queue: map<nat, nat>, ws: seq<Waiting>, machine: Machine)
    ensures multiset(Order(queue, ws, machine)) == multiset(For(ws, machine))
    ensures forall w :: w in Order(queue, ws, machine) <==> w in ws && IsFor(w, machine)
  {
    hide InsertAll, Sort, For, Unmoved, MovedOnes;
    InsertAllKeepsAll(AutomaticFor(queue, ws, machine), ManualFor(ws, machine));
    SplitByManual(For(ws, machine));
    SameMembers(Order(queue, ws, machine), For(ws, machine));
  }

  lemma {:induction false} UnmovedAround(p: seq<Waiting>, w: Waiting, q: seq<Waiting>)
    requires w.manual.Some?
    ensures Unmoved(p + [w] + q) == Unmoved(p + q)
  {
    UnmovedOne(w);
    hide Unmoved;
    UnmovedConcat(p + [w], q);
    UnmovedConcat(p, [w]);
    UnmovedConcat(p, q);
  }

  lemma {:induction false} UnmovedOne(w: Waiting)
    requires w.manual.Some?
    ensures Unmoved([w]) == []
  {
    assert [w][..0] == [];
  }

  lemma {:induction false} InsertedIsNotUnmoved(before: seq<Waiting>, at: nat, w: Waiting)
    requires at <= |before| && w.manual.Some?
    ensures Unmoved(InsertAt(before, at, w)) == Unmoved(before)
  {
    hide Unmoved;
    UnmovedAround(before[..at], w, before[at..]);
    assert before == before[..at] + before[at..];
  }

  lemma {:induction false} InsertingMovesNobodyElse(automatic: seq<Waiting>, manual: seq<Waiting>)
    requires AreMoved(manual) && forall w :: w in automatic ==> w.manual.None?
    ensures Unmoved(InsertAll(automatic, manual)) == automatic
  {
    hide InsertAt, Unmoved;
    if |manual| == 0 {
      AllUnmoved(automatic);
    } else {
      var front, last := manual[..|manual| - 1], manual[|manual| - 1];
      InsertingMovesNobodyElse(automatic, front);
      var before := InsertAll(automatic, front);
      InsertedIsNotUnmoved(before, Min(last.manual.value, |before|), last);
    }
  }

  /** Requests nobody moved keep their order among themselves. */
  lemma {:induction false} UnmovedKeepTheirOrder(queue: map<nat, nat>, ws: seq<Waiting>, machine: Machine)
    ensures Sorted(ByRank(queue), Unmoved(Order(queue, ws, machine)))
    ensures multiset(Unmoved(Order(queue, ws, machine))) == multiset(Unmoved(For(ws, machine)))
  {
    var automatic := AutomaticFor(queue, ws, machine);
    assert forall w :: w in automatic ==> w in multiset(automatic);
    InsertingMovesNobodyElse(automatic, ManualFor(ws, machine));
    SortSorts(ByRank(queue), Unmoved(For(ws, machine)));
  }

  // ----- Where moved requests land -----------------------------------------

  /** By position, and by id where positions are the same. */
  ghost predicate ByPlace(manual: seq<Waiting>)
    requires AreMoved(manual)
  {
    forall i, j :: 0 <= i < j < |manual| ==>
      manual[i].manual.value < manual[j].manual.value
      || (manual[i].manual.value == manual[j].manual.value && manual[i].id <= manual[j].id)
  }

  lemma {:induction false} ManualByPlace(ws: seq<Waiting>, machine: Machine)
    ensures ByPlace(ManualFor(ws, machine))
    ensures multiset(ManualFor(ws, machine)) == multiset(MovedOnes(For(ws, machine)))
  {
    hide For, Sort, MovedOnes;
    var moved := ManualFor(ws, machine);
    SortSorts(ByPosition, MovedOnes(For(ws, machine)));
    forall i, j | 0 <= i < j < |moved|
      ensures !Less(KeyOf(ByPosition, moved[j]), KeyOf(ByPosition, moved[i]))
    {
    }
  }

  /** Where the k-th moved request stands once the first m are inserted. */
  function PlaceOf(n: nat, manual: seq<Waiting>, k: nat, m: nat): (p: nat)
    requires AreMoved(manual) && k < m <= |manual|
    ensures p < n + m
  {
    var at := Min(manual[m - 1].manual.value, n + m - 1);
    if m == k + 1 then at else
      var before := PlaceOf(n, manual, k, m - 1);
      if at <= before then before + 1 else before
  }

  lemma {:induction false} InsertedAt(ws: seq<Waiting>, at: nat, w: Waiting, i: nat)
    requires at <= |ws| && i < |ws|
    ensures |InsertAt(ws, at, w)| == |ws| + 1 && InsertAt(ws, at, w)[at] == w
    ensures InsertAt(ws, at, w)[if at <= i then i + 1 else i] == ws[i]
  {
  }

  lemma {:induction false} StandsAtItsPlace(automatic: seq<Waiting>, manual: seq<Waiting>, k: nat, m: nat)
    requires AreMoved(manual) && k < m <= |manual|
    ensures InsertAll(automatic, manual[..m])[PlaceOf(|automatic|, manual, k, m)] == manual[k]
  {
    hide InsertAt;
    assert manual[..m][..m - 1] == manual[..m - 1];
    var before := InsertAll(automatic, manual[..m - 1]);
    var at := Min(manual[m - 1].manual.value, |before|);
    assert InsertAll(automatic, manual[..m]) == InsertAt(before, at, manual[m - 1]);
    if m > k + 1 {
      StandsAtItsPlace(automatic, manual, k, m - 1);
      InsertedAt(before, at, manual[m - 1], PlaceOf(|automatic|, manual, k, m - 1));
    } else {
      LandsFirst(before, at, manual[m - 1]);
    }
  }

  lemma {:induction false} LandsFirst(ws: seq<Waiting>, at: nat, w: Waiting)
    requires at <= |ws|
    ensures InsertAt(ws, at, w)[at] == w
  {
  }

  /** Pushed back by the next moved request: it has the same position, and that
      position was not yet beyond the end of the queue. */
  predicate Displaced(n: nat, manual: seq<Waiting>, k: nat)
    requires AreMoved(manual) && k < |manual|
  {
    k + 1 < |manual| && manual[k + 1].manual == manual[k].manual && manual[k].manual.value <= n + k
  }

  lemma {:induction false} PlaceKept(n: nat, manual: seq<Waiting>, k: nat, m: nat)
    requires AreMoved(manual) && ByPlace(manual) && k < m <= |manual|
    ensures PlaceOf(n, manual, k, m) >= Min(manual[k].manual.value, n + k)
    ensures m > k + 1 && Displaced(n, manual, k) ==> PlaceOf(n, manual, k, m) > Min(manual[k].manual.value, n + k)
    ensures !Displaced(n, manual, k) ==> PlaceOf(n, manual, k, m) == Min(manual[k].manual.value, n + k)
  {
    if m > k + 1 {
      PlaceKept(n, manual, k, m - 1);
      assert manual[k].manual.value <= manual[k + 1].manual.value <= manual[m - 1].manual.value;
    }
  }

  ghost predicate DistinctIds(ws: seq<Waiting>) {
    forall i, j :: 0 <= i < j < |ws| ==> ws[i].id != ws[j].id
  }

  lemma {:induction false} CountOfDistinct(ws: seq<Waiting>, w: Waiting)
    requires DistinctIds(ws)
    ensures multiset(ws)[w] <= 1
  {
    if |ws| > 0 {
      var front, last := ws[..|ws| - 1], ws[|ws| - 1];
      CountOfDistinct(front, w);
      assert ws == front + [last];
      assert w == last ==> w !in front;
    }
  }

  lemma {:induction false} CountOfTwo(ws: seq<Waiting>, i: nat, j: nat)
    requires i < j < |ws| && ws[i] == ws[j]
    ensures multiset(ws)[ws[i]] >= 2
  {
    var a, b := ws[..j], ws[j..];
    assert ws == a + b;
    assert ws[i] == a[i] && ws[j] == b[0];
    assert ws[i] in multiset(a) && ws[j] in multiset(b);
  }

  lemma {:induction false} ForDistinct(ws: seq<Waiting>, machine: Machine)
    requires DistinctIds(ws)
    ensures DistinctIds(For(ws, machine))
  {
    if |ws| > 0 {
      var front, last := ws[..|ws| - 1], ws[|ws| - 1];
      ForDistinct(front, machine);
      forall i | 0 <= i < |For(front, machine)|
        ensures For(front, machine)[i].id != last.id
      {
        assert For(front, machine)[i] in front;
      }
    }
  }

  lemma {:induction false} OnePlace(queue: map<nat, nat>, ws: seq<Waiting>, machine: Machine, i: nat, j: nat)
    requires DistinctIds(ws)
    requires i < |Order(queue, ws, machine)| && j < |Order(queue, ws, machine)|
    requires Order(queue, ws, machine)[i] == Order(queue, ws, machine)[j]
    ensures i == j
  {
    hide Order, For;
    var order := Order(queue, ws, machine);
    OrderIsAPermutation(queue, ws, machine);
    ForDistinct(ws, machine);
    CountOfDistinct(For(ws, machine), order[i]);
    if i < j {
      CountOfTwo(order, i, j);
    } else if j < i {
      CountOfTwo(order, j, i);
    }
  }

  lemma {:induction false} MovedStand(queue: map<nat, nat>, ws: seq<Waiting>, machine: Machine, k: nat)
    requires k < |ManualFor(ws, machine)|
    ensures var automatic, moved, order := AutomaticFor(queue, ws, machine), ManualFor(ws, machine), Order(queue, ws, machine);
      var p := PlaceOf(|automatic|, moved, k, |moved|);
      |order| == |automatic| + |moved| && order[p] == moved[k]
  {
    hide For, Sort, MovedOnes, Unmoved, InsertAll;
    var moved := ManualFor(ws, machine);
    StandsAtItsPlace(AutomaticFor(queue, ws, machine), moved, k, |moved|);
    assert moved[..|moved|] == moved;
  }

  /** The k-th of the moved requests stands where it was put, as far as there
      are that many before it, exactly if the next one was not put at the same
      place within the queue. */
  lemma {:induction false} MovedLandWherePut(queue: map<nat, nat>, ws: seq<Waiting>, machine: Machine, k: nat)
    requires DistinctIds(ws) && k < |ManualFor(ws, machine)|
    ensures var automatic, moved, order := AutomaticFor(queue, ws, machine), ManualFor(ws, machine), Order(queue, ws, machine);
      var at := Min(moved[k].manual.value, |automatic| + k);
      at < |order| && (order[at] == moved[k] <==> !Displaced(|automatic|, moved, k))
    ensures ByPlace(ManualFor(ws, machine))
    ensures multiset(ManualFor(ws, machine)) == multiset(MovedOnes(For(ws, machine)))
  {
    hide For, Sort, MovedOnes, Unmoved, InsertAll, AutomaticFor, ManualFor, Order, ByPlace, DistinctIds;
    var n, moved, order := |AutomaticFor(queue, ws, machine)|, ManualFor(ws, machine), Order(queue, ws, machine);
    var at := Min(moved[k].manual.value, n + k);
    ManualByPlace(ws, machine);
    MovedStand(queue, ws, machine, k);
    PlaceKept(n, moved, k, |moved|);
    if order[at] == moved[k] {
      OnePlace(queue, ws, machine, at, PlaceOf(n, moved, k, |moved|));
    }
  }

  lemma {:induction false} TiedPlaces(n: nat, manual: seq<Waiting>, i: nat, j: nat, m: nat)
    requires AreMoved(manual) && ByPlace(manual) && i < j < m <= |manual| && manual[i].manual == manual[j].manual
    ensures if manual[i].manual.value <= n + i then PlaceOf(n, manual, j, m) < PlaceOf(n, manual, i, m)
      else PlaceOf(n, manual, i, m) < PlaceOf(n, manual, j, m)
  {
    if m > j + 1 {
      TiedPlaces(n, manual, i, j, m - 1);
    } else {
      PlaceKept(n, manual, i, j);
      if manual[i].manual.value > n + i {
        BeyondTheEnd(n, manual, i, j);
      }
    }
  }

  lemma {:induction false} BeyondTheEnd(n: nat, manual: seq<Waiting>, i: nat, m: nat)
    requires AreMoved(manual) && ByPlace(manual) && i < m <= |manual| && manual[i].manual.value > n + i
    ensures PlaceOf(n, manual, i, m) == n + i
  {
    PlaceKept(n, manual, i, m);
  }

  lemma {:induction false} MovedAreWaiting(ws: seq<Waiting>, machine: Machine, k: nat)
    requires k < |ManualFor(ws, machine)|
    ensures ManualFor(ws, machine)[k] in ws
  {
    hide For, Sort, MovedOnes;
    var moved := ManualFor(ws, machine);
    ManualByPlace(ws, machine);
    assert moved[k] in multiset(moved);
    assert moved[k] in MovedOnes(For(ws, machine));
  }

  lemma {:induction false} SameIdSame(ws: seq<Waiting>, a: Waiting, b: Waiting)
    requires DistinctIds(ws) && a in ws && b in ws && a.id == b.id
    ensures a == b
  {
    var i :| 0 <= i < |ws| && ws[i] == a;
    var j :| 0 <= j < |ws| && ws[j] == b;
    assert i == j;
  }

  ghost predicate Precedes(order: seq<Waiting>, a: Waiting, b: Waiting) {
    exists x, y :: 0 <= x < y < |order| && order[x] == a && order[y] == b
  }

  /** Of two requests moved to one position the one with the larger id goes
      first if that position was within the queue, and the one with the smaller
      id if it was beyond the end. */
  lemma {:induction false} TiesExactly(queue: map<nat, nat>, ws: seq<Waiting>, machine: Machine, i: nat, j: nat)
    requires DistinctIds(ws) && i < j < |ManualFor(ws, machine)|
    requires ManualFor(ws, machine)[i].manual == ManualFor(ws, machine)[j].manual
    ensures var n, moved, order := |AutomaticFor(queue, ws, machine)|, ManualFor(ws, machine), Order(queue, ws, machine);
      && moved[i].id < moved[j].id
      && (Precedes(order, moved[j], moved[i]) <==> moved[i].manual.value <= n + i)
      && (Precedes(order, moved[i], moved[j]) <==> moved[i].manual.value > n + i)
  {
    hide For, Sort, MovedOnes, Unmoved, InsertAll, AutomaticFor, ManualFor, Order, DistinctIds;
    var n, moved, order := |AutomaticFor(queue, ws, machine)|, ManualFor(ws, machine), Order(queue, ws, machine);
    ManualByPlace(ws, machine);
    MovedStand(queue, ws, machine, i);
    MovedStand(queue, ws, machine, j);
    TiedPlaces(n, moved, i, j, |moved|);
    MovedAreWaiting(ws, machine, i);
    MovedAreWaiting(ws, machine, j);
    if moved[i].id == moved[j].id {
      SameIdSame(ws, moved[i], moved[j]);
    }
    hide ByPlace;
    var p, q := PlaceOf(n, moved, i, |moved|), PlaceOf(n, moved, j, |moved|);
    forall x, y | 0 <= x < |order| && 0 <= y < |order| && order[x] == moved[i] && order[y] == moved[j]
      ensures x == p && y == q
    {
      OnePlace(queue, ws, machine, x, p);
      OnePlace(queue, ws, machine, y, q);
    }
  }

  // ----- The order as computed ---------------------------------------------

  method Filter(ws: seq<Waiting>, machine: Machine, moved: bool) returns (r: seq<Waiting>)
    ensures r == if moved then MovedOnes(For(ws, machine)) else Unmoved(For(ws, machine))
  {
    r := [];
    for i := 0 to |ws|
      invariant r == if moved then MovedOnes(For(ws[..i], machine)) else Unmoved(For(ws[..i], machine))
    {
      assert ws[..i + 1][..i] == ws[..i];
      ghost var front := For(ws[..i], machine);
      assert (front + [ws[i]])[..|front|] == front && front + [] == front;
      if ws[i].request.machine == machine && ws[i].manual.Some? == moved {
        r := r + [ws[i]];
      }
    }
    assert ws[..|ws|] == ws;
  }

  method OrderFor(queue: map<nat, nat>, ws: seq<Waiting>, machine: Machine) returns (order: seq<Waiting>)
    ensures order == Order(queue, ws, machine)
  {
    hide For, Sort, MovedOnes, Unmoved;
    var automatic := Filter(ws, machine, false);
    order := Sort(ByRank(queue), automatic);
    var manual := Filter(ws, machine, true);
    manual := Sort(ByPosition, manual);
    assert manual == ManualFor(ws, machine);
    for k := 0 to |manual|
      invariant order == InsertAll(AutomaticFor(queue, ws, machine), manual[..k])
    {
      assert manual[..k + 1][..k] == manual[..k];
      var at := Min(manual[k].manual.value, |order|);
      order := order[..at] + [manual[k]] + order[at..];
    }
    assert manual[..|manual|] == manual;
  }
}
