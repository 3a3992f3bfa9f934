/** The route edits behind the planners' moves: taking a task out of one route,
    putting it into another (at random positions or in front), and exchanging two
    steps; and what each does to the shape and the capacity annotations. */
module RouteEdits {
  import opened Logistics
  import opened VActions
  import opened Routes
  import opened RouteShapes

  // ---------------------------------------------------------------------------
  // Taking a task out

  /** The load along RemovePair(r, p, d): as in r before p, lighter by the task's
      weight between p and d, and as in r again after d. */
  lemma RemovePairCarried(r: Route, p: nat, d: nat)
    requires p < d < |r| && r[p].kind == Pickup && r[d].kind == Delivery && r[p].task == r[d].task
    ensures forall m :: 0 <= m < p ==> Carried(RemovePair(r, p, d), m) == Carried(r, m)
    ensures forall m :: p <= m && m + 1 < d ==> Carried(RemovePair(r, p, d), m) == Carried(r, m + 1) - r[p].task.weight
    ensures forall m :: d <= m + 1 && m < |r| - 2 ==> Carried(RemovePair(r, p, d), m) == Carried(r, m + 2)
  {
    var s := RemovePair(r, p, d);
    forall m | 0 <= m < p ensures Carried(s, m) == Carried(r, m) {
      assert s[..m + 1] == r[..m + 1];
    }
    forall m | p <= m && m + 1 < d ensures Carried(s, m) == Carried(r, m + 1) - r[p].task.weight {
      assert s[..m + 1] == r[..p] + r[p + 1..m + 2];
      assert r[..m + 2] == r[..p] + ([r[p]] + r[p + 1..m + 2]);
      LoadAppend(r[..p], r[p + 1..m + 2]);
      LoadAppend(r[..p], [r[p]] + r[p + 1..m + 2]);
      LoadCons(r[p], r[p + 1..m + 2]);
    }
    forall m | d <= m + 1 && m < |r| - 2 ensures Carried(s, m) == Carried(r, m + 2) {
      RemovePairCarriedAfter(r, p, d, m);
    }
  }

  lemma RemovePairCarriedAfter(r: Route, p: nat, d: nat, m: nat)
    requires p < d < |r| && r[p].kind == Pickup && r[d].kind == Delivery && r[p].task == r[d].task
    requires d <= m + 1 && m < |r| - 2
    ensures Carried(RemovePair(r, p, d), m) == Carried(r, m + 2)
  {
    var s := RemovePair(r, p, d);
    var a, b, c := r[..p], r[p + 1..d], r[d + 1..m + 3];
    assert s[..m + 1] == a + (b + c);
    assert r[..m + 3] == a + ([r[p]] + (b + ([r[d]] + c)));
    LoadAppend(a, b + c);
    LoadAppend(b, c);
    LoadAppend(a, [r[p]] + (b + ([r[d]] + c)));
    LoadCons(r[p], b + ([r[d]] + c));
    LoadAppend(b, [r[d]] + c);
    LoadCons(r[d], c);
  }

  /** The old vehicle's side of changingVehicle: with the task's pickup at p and
      delivery at d removed from a valid route, COD.updateCapacity(v1, p) (made
      only when p is still a position of the route) succeeds, and the route is
      valid again. */
  lemma RemoveTaskOk(r: Route, p: nat, d: nat, cap: nat)
    requires RouteOk(r, cap) && p < d < |r|
    requires r[p].kind == Pickup && r[d].kind == Delivery && r[p].task == r[d].task
    ensures var s := RemovePair(r, p, d);
      && (p < |s| ==> Propagate(s, p, cap).1 && RouteOk(Propagate(s, p, cap).0, cap))
      && (p < |s| ==> SameKeys(s, Propagate(s, p, cap).0))
      && (p >= |s| ==> RouteOk(s, cap))
      && Tasks(s) == Tasks(r) - {r[p].task}
  {
    var s := RemovePair(r, p, d);
    RemovePairShape(r, p, d);
    RemovePairCarried(r, p, d);
    RemovePairAt(r, p, d);
    ConsistentFeasible(r, cap);
    assert forall m :: 0 <= m < p && m < |s| ==> s[m] == r[m];
    assert LoadFits(s, cap);
    if p < |s| {
      PropagateSpec(s, p, cap);
      PropagateFeasible(s, p, cap);
      SameKeysShape(s, Propagate(s, p, cap).0);
    }
  }

  // ---------------------------------------------------------------------------
  // Putting a task in

  /** r with a inserted at p and b right before what was at d. */
  function InsertPair(r: Route, p: nat, d: nat, a: VAction, b: VAction): Route
    requires p <= d <= |r|
  {
    r[..p] + [a] + r[p..d] + [b] + r[d..]
  }

  /** changingVehicle's two insertions: the delivery at indexD, then the pickup at
      indexP <= indexD, which pushes the delivery one place on. */
  lemma InsertAtTwice(r: Route, p: nat, d: nat, a: VAction, b: VAction)
    requires p <= d <= |r|
    ensures InsertAt(InsertAt(r, d, b), p, a) == InsertPair(r, p, d, a, b)
  {
    var r1 := InsertAt(r, d, b);
    assert r1[..p] == r[..p];
    assert r1[p..] == r[p..d] + [b] + r[d..];
  }

  /** Where step x of InsertPair(r, p, d, a, b) came from, for x other than p and d + 1. */
  function Origin(p: nat, d: nat, x: nat): int
  {
    if x < p then x else if x <= d then x - 1 else x - 2
  }

  lemma InsertPairAt(r: Route, p: nat, d: nat, a: VAction, b: VAction)
    requires p <= d <= |r|
    ensures |InsertPair(r, p, d, a, b)| == |r| + 2
    ensures InsertPair(r, p, d, a, b)[p] == a && InsertPair(r, p, d, a, b)[d + 1] == b
    ensures forall x :: 0 <= x < |r| + 2 && x != p && x != d + 1 ==>
              0 <= Origin(p, d, x) < |r| && InsertPair(r, p, d, a, b)[x] == r[Origin(p, d, x)]
  {
    var s := InsertPair(r, p, d, a, b);
    forall x | 0 <= x < |r| + 2 && x != p && x != d + 1
      ensures 0 <= Origin(p, d, x) < |r| && InsertPair(r, p, d, a, b)[x] == r[Origin(p, d, x)]
    {
      if x < p {
        assert s[x] == r[..p][x];
      } else if x < d + 1 {
        assert s[x] == r[p..d][x - p - 1];
      } else {
        assert s[x] == r[d..][x - d - 2];
      }
    }
  }

  /** Inserting a new task's pickup before its delivery keeps a route well formed
      and adds the task to it. */
  lemma InsertPairShape(r: Route, p: nat, d: nat, t: Task, x: int, y: int)
    requires WellFormed(r) && t !in Tasks(r) && p <= d <= |r|
    ensures var s := InsertPair(r, p, d, NewPickup(t, x), NewDelivery(t, y));
      && WellFormed(s)
      && Tasks(s) == Tasks(r) + {t}
      && (forall cap :: Fits(r, cap) && t.weight <= cap ==> Fits(s, cap))
  {
    var s := InsertPair(r, p, d, NewPickup(t, x), NewDelivery(t, y));
    InsertPairAt(r, p, d, NewPickup(t, x), NewDelivery(t, y));
    forall m, n | 0 <= m < n < |s| ensures !SameKey(s[m], s[n]) {
      InsertedPairDistinct(r, p, d, t, x, y, m, n);
    }
    forall m, n | 0 <= m < |s| && 0 <= n < |s| && s[m].kind == Pickup && s[n].kind == Delivery
                  && s[m].task == s[n].task
      ensures m < n
    {
      InsertedPairOrdered(r, p, d, t, x, y, m, n);
    }
    InsertPairTasksOf(r, p, d, t, x, y, Pickup);
    InsertPairTasksOf(r, p, d, t, x, y, Delivery);
    TasksSplit(r);
    TasksSplit(s);
  }

  lemma InsertedPairDistinct(r: Route, p: nat, d: nat, t: Task, x: int, y: int, m: nat, n: nat)
    requires Distinct(r) && t !in Tasks(r) && p <= d <= |r|
    requires m < n < |r| + 2
    ensures var s := InsertPair(r, p, d, NewPickup(t, x), NewDelivery(t, y));
      !SameKey(s[m], s[n])
  {
    var s := InsertPair(r, p, d, NewPickup(t, x), NewDelivery(t, y));
    InsertPairAt(r, p, d, NewPickup(t, x), NewDelivery(t, y));
    var m', n' := Origin(p, d, m), Origin(p, d, n);
    if m != p && m != d + 1 && n != p && n != d + 1 {
      assert m' < n';
    } else if m != p && m != d + 1 {
      assert s[m].task in Tasks(r);
    } else if n != p && n != d + 1 {
      assert s[n].task in Tasks(r);
    }
  }

  lemma InsertedPairOrdered(r: Route, p: nat, d: nat, t: Task, x: int, y: int, m: nat, n: nat)
    requires WellFormed(r) && t !in Tasks(r) && p <= d <= |r|
    requires m < |r| + 2 && n < |r| + 2
    requires var s := InsertPair(r, p, d, NewPickup(t, x), NewDelivery(t, y));
      s[m].kind == Pickup && s[n].kind == Delivery && s[m].task == s[n].task
    ensures m < n
  {
    var s := InsertPair(r, p, d, NewPickup(t, x), NewDelivery(t, y));
    InsertPairAt(r, p, d, NewPickup(t, x), NewDelivery(t, y));
    if s[m].task != t {
      assert m != p && m != d + 1 && n != p && n != d + 1;
      var m', n' := Origin(p, d, m), Origin(p, d, n);
      assert r[m'].kind == Pickup && r[n'].kind == Delivery && r[m'].task == r[n'].task;
      assert m' < n';
    } else {
      assert s[m].task !in Tasks(r) && s[n].task !in Tasks(r);
      assert m == p && n == d + 1;
    }
  }

  lemma InsertPairTasksOf(r: Route, p: nat, d: nat, t: Task, x: int, y: int, k: Kind)
    requires p <= d <= |r|
    ensures TasksOf(InsertPair(r, p, d, NewPickup(t, x), NewDelivery(t, y)), k) == TasksOf(r, k) + {t}
  {
    var s := InsertPair(r, p, d, NewPickup(t, x), NewDelivery(t, y));
    InsertPairAt(r, p, d, NewPickup(t, x), NewDelivery(t, y));
    forall u | u in TasksOf(r, k) ensures u in TasksOf(s, k) {
      var q :| 0 <= q < |r| && r[q].kind == k && r[q].task == u;
      var z := if q < p then q else if q < d then q + 1 else q + 2;
      assert Origin(p, d, z) == q && z != p && z != d + 1 && s[z] == r[q];
    }
    assert t in TasksOf(s, k) by {
      if k == Pickup { assert s[p].kind == k; } else { assert s[d + 1].kind == k; }
    }
    forall u | u in TasksOf(s, k) ensures u in TasksOf(r, k) + {t} {
      var z :| 0 <= z < |s| && s[z].kind == k && s[z].task == u;
      if z != p && z != d + 1 {
        assert r[Origin(p, d, z)] == s[z];
      }
    }
  }

  /** The new vehicle's side of changingVehicle when its route is long enough: the
      task is inserted, COD.updateCapacity(v2, 0) reports whether the vehicle is
      overloaded anywhere past its first step, and when it is not the route is valid
      again. */
  lemma InsertTaskOk(r: Route, p: nat, d: nat, t: Task, cap: nat)
    requires RouteOk(r, cap) && t !in Tasks(r) && t.weight <= cap && p <= d <= |r|
    ensures var s := InsertPair(r, p, d, NewPickup(t, 0), NewDelivery(t, 0));
      && (Propagate(s, 0, cap).1 <==> LoadFits(s, cap))
      && (Propagate(s, 0, cap).1 ==> RouteOk(Propagate(s, 0, cap).0, cap))
      && Tasks(s) == Tasks(r) + {t}
  {
    var s := InsertPair(r, p, d, NewPickup(t, 0), NewDelivery(t, 0));
    InsertPairShape(r, p, d, t, 0, 0);
    PropagateSpec(s, 0, cap);
    InsertPairAt(r, p, d, NewPickup(t, 0), NewDelivery(t, 0));
    if Propagate(s, 0, cap).1 {
      PropagateFeasible(s, 0, cap);
      SameKeysShape(s, Propagate(s, 0, cap).0);
    }
    assert s[0].task.weight <= cap;
    assert s[..1] == [s[0]];
    LoadSingle(s[0]);
  }

  // ---------------------------------------------------------------------------
  // COD.addTask

  /** The route after COD.addTask(v, t): t's pickup and delivery in front, annotated
      from the vehicle's capacity. */
  function Prepend(r: Route, t: Task, cap: int): Route
  {
    [NewPickup(t, cap - t.weight), NewDelivery(t, cap)] + r
  }

  /** Putting a new task that fits the vehicle in front of a valid route gives a
      valid route: the pair adds no load to anything after it. */
  lemma PrependOk(r: Route, t: Task, cap: nat)
    requires RouteOk(r, cap) && t !in Tasks(r) && t.weight <= cap
    ensures RouteOk(Prepend(r, t, cap), cap)
    ensures Tasks(Prepend(r, t, cap)) == Tasks(r) + {t}
  {
    var s := Prepend(r, t, cap);
    var pair := [NewPickup(t, cap - t.weight), NewDelivery(t, cap)];
    assert s == InsertPair(r, 0, 0, NewPickup(t, cap - t.weight), NewDelivery(t, cap));
    InsertPairShape(r, 0, 0, t, cap - t.weight, cap);
    PairLoad(t, cap - t.weight, cap);
    assert s[..1] == [s[0]];
    LoadSingle(s[0]);
    assert s[..2] == pair;
    forall m | 0 <= m < |r| ensures Carried(s, m + 2) == Carried(r, m) {
      assert s[..m + 3] == pair + r[..m + 1];
      LoadAppend(pair, r[..m + 1]);
    }
    forall m | 0 <= m < |s| ensures s[m].remaining == cap - Carried(s, m) {
      if m >= 2 {
        assert s[m] == r[m - 2] && Carried(s, m - 2 + 2) == Carried(r, m - 2);
      }
    }
  }

  /** COD.updateCapacity(v, 0) on a route whose annotations are already right and
      which never overloads the vehicle changes nothing and succeeds. */
  lemma PropagateConsistent(r: Route, cap: int)
    requires Consistent(r, cap) && LoadFits(r, cap)
    ensures Propagate(r, 0, cap) == (r, true)
  {
    PropagateSpec(r, 0, cap);
    var s := Propagate(r, 0, cap).0;
    if r != [] {
      CarriedSameKeys(r, s);
      forall m | 0 <= m < |r| ensures s[m] == r[m] {
        assert SameKey(s[m], r[m]) && s[m].remaining == r[m].remaining;
      }
      assert s == r;
    }
  }

  // ---------------------------------------------------------------------------
  // Exchanging two steps

  /** The route with the steps at i and j exchanged. */
  function Swap(r: Route, i: nat, j: nat): Route
    requires i < j < |r|
  {
    r[i := r[j]][j := r[i]]
  }

  /** The guards of changingVActionOrder: the two steps belong to different tasks,
      a pickup moved to j still comes before its delivery, and a delivery moved to
      i still comes after its pickup. */
  predicate SwapAllowed(r: Route, i: nat, j: nat)
    requires i < j < |r|
  {
    && r[i].task != r[j].task
    && (r[i].kind == Pickup ==> IndexOf(r, Delivery, r[i].task) > j)
    && (r[j].kind == Delivery ==> IndexOf(r, Pickup, r[j].task) < i)
  }

  /** In a well-formed route the guards of changingVActionOrder are exactly the
      exchanges that keep the route well formed. */
  lemma SwapShape(r: Route, i: nat, j: nat)
    requires WellFormed(r) && i < j < |r|
    ensures WellFormed(Swap(r, i, j)) <==> SwapAllowed(r, i, j)
    ensures Tasks(Swap(r, i, j)) == Tasks(r)
    ensures forall cap :: Fits(r, cap) ==> Fits(Swap(r, i, j), cap)
  {
    var s := Swap(r, i, j);
    var f := (m: nat) => if m == i then j else if m == j then i else m;
    assert forall m :: 0 <= m < |s| ==> s[m] == r[f(m)];
    SwapTasks(r, i, j);
    if SwapAllowed(r, i, j) {
      SwapDistinct(r, i, j);
      forall m, n | 0 <= m < |s| && 0 <= n < |s| && s[m].kind == Pickup && s[n].kind == Delivery
                    && s[m].task == s[n].task
        ensures m < n
      {
        SwapOrdered(r, i, j, m, n);
      }
    } else {
      SwapRefused(r, i, j);
    }
  }

  lemma SwapTasks(r: Route, i: nat, j: nat)
    requires i < j < |r|
    ensures forall k :: TasksOf(Swap(r, i, j), k) == TasksOf(r, k)
    ensures Tasks(Swap(r, i, j)) == Tasks(r)
  {
    var s := Swap(r, i, j);
    forall k ensures TasksOf(s, k) == TasksOf(r, k) {
      forall u | u in TasksOf(r, k) ensures u in TasksOf(s, k) {
        var q :| 0 <= q < |r| && r[q].kind == k && r[q].task == u;
        var z := if q == i then j else if q == j then i else q;
        assert s[z] == r[q];
      }
      forall u | u in TasksOf(s, k) ensures u in TasksOf(r, k) {
        var z :| 0 <= z < |s| && s[z].kind == k && s[z].task == u;
        var q := if z == i then j else if z == j then i else z;
        assert s[z] == r[q];
      }
    }
    forall u | u in Tasks(r) ensures u in Tasks(s) {
      var q :| 0 <= q < |r| && r[q].task == u;
      var z := if q == i then j else if q == j then i else q;
      assert s[z] == r[q];
    }
    forall u | u in Tasks(s) ensures u in Tasks(r) {
      var z :| 0 <= z < |s| && s[z].task == u;
      var q := if z == i then j else if z == j then i else z;
      assert s[z] == r[q];
    }
  }

  lemma SwapDistinct(r: Route, i: nat, j: nat)
    requires Distinct(r) && i < j < |r|
    ensures Distinct(Swap(r, i, j))
  {
    var s := Swap(r, i, j);
    forall m, n | 0 <= m < n < |s| ensures !SameKey(s[m], s[n]) {
      var m' := if m == i then j else if m == j then i else m;
      var n' := if n == i then j else if n == j then i else n;
      assert s[m] == r[m'] && s[n] == r[n'] && m' != n';
      DistinctUniqueNot(r, m', n');
    }
  }

  lemma SwapOrdered(r: Route, i: nat, j: nat, m: nat, n: nat)
    requires WellFormed(r) && i < j < |r| && SwapAllowed(r, i, j)
    requires m < |r| && n < |r|
    requires var s := Swap(r, i, j);
      s[m].kind == Pickup && s[n].kind == Delivery && s[m].task == s[n].task
    ensures m < n
  {
    var s := Swap(r, i, j);
    var m' := if m == i then j else if m == j then i else m;
    var n' := if n == i then j else if n == j then i else n;
    assert s[m] == r[m'] && s[n] == r[n'];
    assert m' < n';
    var e := IndexOf(r, Delivery, r[i].task);
    var q := IndexOf(r, Pickup, r[j].task);
    if m == j {
      // the pickup that moved forward: its delivery lies past j
      assert r[i].kind == Pickup && SameKey(r[n'], r[e]);
      DistinctUnique(r, n', e);
    } else if n == i {
      // the delivery that moved back: its pickup lies before i
      assert r[j].kind == Delivery && SameKey(r[m'], r[q]);
      DistinctUnique(r, m', q);
    }
  }

  /** A refused exchange would put some delivery before its pickup. */
  lemma SwapRefused(r: Route, i: nat, j: nat)
    requires WellFormed(r) && i < j < |r| && !SwapAllowed(r, i, j)
    ensures !PickupFirst(Swap(r, i, j))
  {
    var s := Swap(r, i, j);
    if r[i].task == r[j].task {
      assert !SameKey(r[i], r[j]);
      assert s[j].task == s[i].task && s[j].kind == r[i].kind && s[i].kind == r[j].kind;
      assert r[i].kind == Pickup && r[j].kind == Delivery;
    } else if r[i].kind == Pickup && IndexOf(r, Delivery, r[i].task) <= j {
      TasksSplit(r);
      assert r[i].task in TasksOf(r, Delivery);
      var e := IndexOf(r, Delivery, r[i].task);
      assert s[j] == r[i] && s[e] == r[e] && e < j;
    } else {
      TasksSplit(r);
      assert r[j].task in TasksOf(r, Pickup);
      var q := IndexOf(r, Pickup, r[j].task);
      assert s[i] == r[j] && s[q] == r[q] && i < q;
    }
  }

  /** The list edits of changingVActionOrder for va1 = r[i] and va2 = r[j], in the
      order the planner makes them. When va2 follows va1 directly, va1 is removed
      and put back after va2. Otherwise va2 is removed, va1 put after va2's
      predecessor, va1's first occurrence removed, and va2 put after va1's old
      predecessor, or in front when va1 was first. */
  function ReorderEdit(r: Route, i: nat, j: nat): Route
    requires i < j < |r|
  {
    var va1, va2 := r[i], r[j];
    var pre1 := r[if i > 0 then i - 1 else 0];
    var pre2 := r[j - 1];
    var post1 := r[i + 1];
    if SameKey(post1, va2) then
      InsertAfter(RemoveFirst(r, va1), va2, va1)
    else
      var r1 := InsertAfter(RemoveFirst(r, va2), pre2, va1);
      var r2 := RemoveFirst(r1, va1);
      if SameKey(va1, pre1) then [va2] + r2 else InsertAfter(r2, pre1, va2)
  }

  /** On a route without repeated steps, the edits of changingVActionOrder exchange
      the steps at i and j and touch nothing else. */
  lemma ReorderEditIsSwap(r: Route, i: nat, j: nat)
    requires Distinct(r) && i < j < |r|
    ensures ReorderEdit(r, i, j) == Swap(r, i, j)
  {
    if SameKey(r[i + 1], r[j]) {
      DistinctUnique(r, i + 1, j);
      AdjacentEdit(r, i);
    } else {
      FarEdit(r, i, j);
    }
  }

  lemma AdjacentEdit(r: Route, i: nat)
    requires Distinct(r) && i + 1 < |r|
    ensures InsertAfter(RemoveFirst(r, r[i]), r[i + 1], r[i]) == Swap(r, i, i + 1)
  {
    var va1, va2 := r[i], r[i + 1];
    DistinctIndexOf(r, i);
    var r1 := r[..i] + r[i + 1..];
    assert RemoveFirst(r, va1) == r1;
    forall m | 0 <= m < i ensures r1[m] != va2 {
      DistinctUniqueNot(r, m, i + 1);
    }
    FindAt(r1, i, va2);
    assert InsertAfter(r1, va2, va1) == r1[..i + 1] + [va1] + r1[i + 1..];
  }

  /** The first two edits of the general case put va1 where va2 was. */
  lemma FarEditMovesFirst(r: Route, i: nat, j: nat)
    requires Distinct(r) && i + 1 < j < |r|
    ensures InsertAfter(RemoveFirst(r, r[j]), r[j - 1], r[i]) == r[..j] + [r[i]] + r[j + 1..]
  {
    DistinctIndexOf(r, j);
    var r0 := r[..j] + r[j + 1..];
    assert RemoveFirst(r, r[j]) == r0;
    forall m | 0 <= m < j - 1 ensures r0[m] != r[j - 1] {
      DistinctUniqueNot(r, m, j - 1);
    }
    FindAt(r0, j - 1, r[j - 1]);
  }

  /** Removing va1 then takes out its original occurrence. */
  lemma FarEditDropsFirst(r: Route, i: nat, j: nat)
    requires Distinct(r) && i + 1 < j < |r|
    ensures RemoveFirst(r[..j] + [r[i]] + r[j + 1..], r[i]) == r[..i] + r[i + 1..j] + [r[i]] + r[j + 1..]
  {
    var r1 := r[..j] + [r[i]] + r[j + 1..];
    forall m | 0 <= m < i ensures !(r1[m].kind == r[i].kind && r1[m].task == r[i].task) {
      DistinctUniqueNot(r, m, i);
    }
    IndexOfAt(r1, i, r[i].kind, r[i].task);
  }

  lemma FarEdit(r: Route, i: nat, j: nat)
    requires Distinct(r) && i < j < |r| && !SameKey(r[i + 1], r[j])
    ensures ReorderEdit(r, i, j) == Swap(r, i, j)
  {
    var va1, va2 := r[i], r[j];
    var pre1 := r[if i > 0 then i - 1 else 0];
    assert j > i + 1;
    FarEditMovesFirst(r, i, j);
    FarEditDropsFirst(r, i, j);
    var r1 := r[..j] + [va1] + r[j + 1..];
    var r2 := r[..i] + r[i + 1..j] + [va1] + r[j + 1..];
    assert InsertAfter(RemoveFirst(r, va2), r[j - 1], va1) == r1;
    assert RemoveFirst(r1, va1) == r2;
    assert ReorderEdit(r, i, j) == if SameKey(va1, pre1) then [va2] + r2 else InsertAfter(r2, pre1, va2);
    if i == 0 {
      assert [va2] + r2 == Swap(r, i, j);
    } else {
      FarEditPutsSecond(r, i, j);
    }
  }

  lemma FarEditPutsSecond(r: Route, i: nat, j: nat)
    requires Distinct(r) && 0 < i && i + 1 < j < |r|
    ensures var r2 := r[..i] + r[i + 1..j] + [r[i]] + r[j + 1..];
      !SameKey(r[i], r[i - 1]) && InsertAfter(r2, r[i - 1], r[j]) == Swap(r, i, j)
  {
    var r2 := r[..i] + r[i + 1..j] + [r[i]] + r[j + 1..];
    DistinctUniqueNot(r, i, i - 1);
    forall m | 0 <= m < i - 1 ensures r2[m] != r[i - 1] {
      DistinctUniqueNot(r, m, i - 1);
    }
    FindAt(r2, i - 1, r[i - 1]);
    assert InsertAfter(r2, r[i - 1], r[j]) == r2[..i] + [r[j]] + r2[i..];
    var lhs := r2[..i] + [r[j]] + r2[i..];
    assert r2[..i] == r[..i];
    assert r2[i..] == r[i + 1..j] + [r[i]] + r[j + 1..];
    forall m | 0 <= m < |r| ensures lhs[m] == Swap(r, i, j)[m] {
      if m < i {
      } else if m == i {
      } else if m < j {
        assert lhs[m] == r[i + 1..j][m - i - 1];
      } else if m > j {
        assert lhs[m] == r[j + 1..][m - j - 1];
      }
    }
  }
}
