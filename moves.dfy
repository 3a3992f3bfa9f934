/** The two neighbourhood moves of the local search, changingVehicle and
    changingVActionOrder, shared word for word by the current centralized agent
    and both auction agents: first as functions on plan values, with what they
    guarantee, then as the planners' edits of a cloned COD. */
module Moves {
  import opened Logistics
  import opened VActions
  import opened Routes
  import opened RouteShapes
  import opened RouteEdits
  import opened Plans

  // ---------------------------------------------------------------------------
  // changingVehicle

  /** The two removals of changingVehicle: t's delivery, then its pickup. */
  function RemoveTask(r: Route, t: Task): Route
  {
    RemoveFirst(RemoveFirst(r, NewDelivery(t, 0)), NewPickup(t, 0))
  }

  /** The positions drawn for a route of n > 1 steps: indexP = nextInt(n - 1) and
      indexD = indexP + nextInt(n - indexP). */
  function InsertPositions(n: nat, rp: Fraction, rd: Fraction): (pd: (nat, nat))
    requires n > 1
    ensures pd.0 <= pd.1 < n && pd.0 < n - 1
  {
    var ip := NextInt(rp, n - 1);
    (ip, NextInt(rd, n - ip) + ip)
  }

  /** Every pair of positions the bounds allow is drawn for some random numbers. */
  lemma InsertPositionsReach(n: nat, ip: nat, id: nat)
    requires n > 1 && ip <= id < n && ip < n - 1
    ensures var rp := ip as real / (n - 1) as real;
            var rd := (id - ip) as real / (n - ip) as real;
            0.0 <= rp < 1.0 && 0.0 <= rd < 1.0 && InsertPositions(n, rp, rd) == (ip, id)
  {
    NextIntReaches(ip, n - 1);
    NextIntReaches(id - ip, n - ip);
  }

  /** The new vehicle's route after changingVehicle has put t in, before any
      annotation is recomputed: on a route of more than two steps the delivery goes
      in at indexD and then the pickup at indexP, both annotated 0; otherwise
      COD.addTask puts the pair in front. */
  function Inserted(r: Route, t: Task, cap: int, rp: Fraction, rd: Fraction): Route
  {
    if |r| > 2 then
      var (ip, id) := InsertPositions(|r|, rp, rd);
      InsertAt(InsertAt(r, id, NewDelivery(t, 0)), ip, NewPickup(t, 0))
    else
      Prepend(r, t, cap)
  }

  /** The plan after t has been given to v: the insertion, with t indexed to v; the
      addTask branch changes nothing when t is too heavy for v. */
  function GiveTask(p: Plan, v: Vehicle, t: Task, rp: Fraction, rd: Fraction): Plan
    requires v in p.routes
  {
    if |p.routes[v]| > 2 || t.weight <= v.capacity then
      Plan(p.routes[v := Inserted(p.routes[v], t, v.capacity, rp, rd)], p.index[t := v])
    else
      p
  }

  /** The plan after changingVehicle's two removals from v1's route. */
  function TakeTask(p: Plan, v: Vehicle, t: Task): Plan
    requires v in p.routes
  {
    p.(routes := p.routes[v := RemoveTask(p.routes[v], t)])
  }

  /** COD.updateCapacity(v, start) with its result ignored, made only when start is
      a position of v's route. */
  function Settle(p: Plan, v: Vehicle, start: nat): Plan
    requires v in p.routes
  {
    if start < |p.routes[v]| then p.(routes := p.routes[v := Propagate(p.routes[v], start, v.capacity).0])
    else p
  }

  /** `updateCapacity(v, 0) ? A1 : null`. */
  function Commit(p: Plan, v: Vehicle): Option<Plan>
    requires v in p.routes
  {
    var (r, ok) := Propagate(p.routes[v], 0, v.capacity);
    if ok then Some(p.(routes := p.routes[v := r])) else None
  }

  /** changingVehicle(A, v1, v2, t) on the plan value: take t out of v1, put it in
      v2, recompute v1's annotations from t's old pickup position when that is still
      a position of the route (its result ignored), and keep the plan only when
      recomputing v2's annotations from the start succeeds. */
  function MoveTask(p: Plan, v1: Vehicle, v2: Vehicle, t: Task, rp: Fraction, rd: Fraction): Option<Plan>
    requires v1 in p.routes && v2 in p.routes && IndexOf(p.routes[v1], Pickup, t) >= 0
  {
    var indexT := IndexOf(p.routes[v1], Pickup, t);
    Commit(Settle(GiveTask(TakeTask(p, v1, t), v2, t, rp, rd), v1, indexT), v2)
  }

  /** What a successful move of t from v1 to v2 leaves: a valid plan with the same
      vehicles and tasks, t indexed to v2, v1's route the old one without t's two
      steps, v2's route the insertion, both re-annotated, and every other route as
      it was. */
  predicate MovedTo(p: Plan, q: Plan, v1: Vehicle, v2: Vehicle, t: Task, rp: Fraction, rd: Fraction)
    requires v1 in p.routes && v2 in p.routes
  {
    && ValidPlan(q)
    && q.routes.Keys == p.routes.Keys
    && q.index == p.index[t := v2]
    && SameKeys(RemoveTask(p.routes[v1], t), q.routes[v1])
    && SameKeys(Inserted(p.routes[v2], t, v2.capacity, rp, rd), q.routes[v2])
    && Tasks(q.routes[v1]) == Tasks(p.routes[v1]) - {t}
    && Tasks(q.routes[v2]) == Tasks(p.routes[v2]) + {t}
    && (forall u :: u in p.routes && u != v1 && u != v2 ==> q.routes[u] == p.routes[u])
  }

  /** The new vehicle's side of changingVehicle: recomputing from the start succeeds
      exactly when the vehicle is never overloaded; the addTask branch always
      succeeds and needs no change. */
  lemma InsertedFits(r: Route, t: Task, cap: nat, rp: Fraction, rd: Fraction)
    requires RouteOk(r, cap) && t !in Tasks(r) && t.weight <= cap
    ensures var s := Inserted(r, t, cap, rp, rd);
      && (Propagate(s, 0, cap).1 <==> LoadFits(s, cap))
      && (|r| <= 2 ==> Propagate(s, 0, cap) == (s, true))
  {
    var s := Inserted(r, t, cap, rp, rd);
    if |r| > 2 {
      var (ip, id) := InsertPositions(|r|, rp, rd);
      InsertAtTwice(r, ip, id, NewPickup(t, 0), NewDelivery(t, 0));
      InsertTaskOk(r, ip, id, t, cap);
    } else {
      PrependOk(r, t, cap);
      ConsistentFeasible(s, cap);
      PropagateConsistent(s, cap);
    }
  }

  /** When recomputing succeeds the new vehicle's route is valid again and serves t
      besides its old tasks. */
  lemma InsertedValid(r: Route, t: Task, cap: nat, rp: Fraction, rd: Fraction)
    requires RouteOk(r, cap) && t !in Tasks(r) && t.weight <= cap
    requires Propagate(Inserted(r, t, cap, rp, rd), 0, cap).1
    ensures var s := Inserted(r, t, cap, rp, rd);
      && RouteOk(Propagate(s, 0, cap).0, cap)
      && SameKeys(s, Propagate(s, 0, cap).0)
      && Tasks(Propagate(s, 0, cap).0) == Tasks(r) + {t}
  {
    var s := Inserted(r, t, cap, rp, rd);
    if |r| > 2 {
      var (ip, id) := InsertPositions(|r|, rp, rd);
      InsertAtTwice(r, ip, id, NewPickup(t, 0), NewDelivery(t, 0));
      InsertTaskOk(r, ip, id, t, cap);
      PropagateSpec(s, 0, cap);
      SameKeysShape(s, Propagate(s, 0, cap).0);
    } else {
      PrependOk(r, t, cap);
      ConsistentFeasible(s, cap);
      PropagateConsistent(s, cap);
    }
  }

  /** Replacing the routes of v1 and v2 keeps the index in agreement when t moves
      from one to the other and every other task stays put. */
  lemma MoveIndex(p: Plan, q: Plan, v1: Vehicle, v2: Vehicle, t: Task)
    requires IndexAgrees(p) && v1 in p.routes && v2 in p.routes && v1 != v2
    requires t in p.index && p.index[t] == v1
    requires q.routes.Keys == p.routes.Keys && q.index == p.index[t := v2]
    requires Tasks(q.routes[v1]) == Tasks(p.routes[v1]) - {t}
    requires Tasks(q.routes[v2]) == Tasks(p.routes[v2]) + {t}
    requires forall u :: u in p.routes && u != v1 && u != v2 ==> q.routes[u] == p.routes[u]
    ensures IndexAgrees(q)
  {
    forall w, u | w in q.routes && u in Tasks(q.routes[w]) ensures u in q.index && q.index[u] == w {
      if w != v1 && w != v2 {
        assert u in Tasks(p.routes[w]);
      }
    }
    forall u | u in q.index ensures q.index[u] in q.routes && u in Tasks(q.routes[q.index[u]]) {
      if u != t {
        assert u in Tasks(p.routes[p.index[u]]);
      }
    }
  }

  /** On a valid plan, moving a task its vehicle carries to another vehicle that
      can carry it fails exactly when the insertion overloads the new vehicle (never
      on a route of at most two steps), and otherwise gives a valid plan with the
      same tasks in which only the two routes and t's index entry changed. */
  lemma MoveTaskOk(p: Plan, v1: Vehicle, v2: Vehicle, t: Task, rp: Fraction, rd: Fraction)
    requires ValidPlan(p) && v1 in p.routes && v2 in p.routes && v1 != v2
    requires t in p.index && p.index[t] == v1 && t.weight <= v2.capacity
    ensures IndexOf(p.routes[v1], Pickup, t) >= 0
    ensures var res := MoveTask(p, v1, v2, t, rp, rd);
      && (res.Some? <==> LoadFits(Inserted(p.routes[v2], t, v2.capacity, rp, rd), v2.capacity))
      && (|p.routes[v2]| <= 2 ==> res.Some?)
      && (res.Some? ==> MovedTo(p, res.value, v1, v2, t, rp, rd))
  {
    var r1, r2 := p.routes[v1], p.routes[v2];
    assert t in Tasks(r1);
    assert t !in Tasks(r2);
    assert RouteOk(r1, v1.capacity) && RouteOk(r2, v2.capacity);
    MoveTaskSides(p, v1, v2, t, rp, rd);
  }

  /** MoveTaskOk once the two routes are known to be valid, t to be on the first
      and not on the second. */
  lemma MoveTaskSides(p: Plan, v1: Vehicle, v2: Vehicle, t: Task, rp: Fraction, rd: Fraction)
    requires ValidPlan(p) && v1 in p.routes && v2 in p.routes && v1 != v2
    requires t in p.index && p.index[t] == v1 && t.weight <= v2.capacity
    requires RouteOk(p.routes[v1], v1.capacity) && RouteOk(p.routes[v2], v2.capacity)
    requires t in Tasks(p.routes[v1]) && t !in Tasks(p.routes[v2])
    ensures IndexOf(p.routes[v1], Pickup, t) >= 0
    ensures var res := MoveTask(p, v1, v2, t, rp, rd);
      && (res.Some? <==> LoadFits(Inserted(p.routes[v2], t, v2.capacity, rp, rd), v2.capacity))
      && (|p.routes[v2]| <= 2 ==> res.Some?)
      && (res.Some? ==> MovedTo(p, res.value, v1, v2, t, rp, rd))
  {
    PairPositions(p.routes[v1], t);
    MoveTaskFits(p, v1, v2, t, rp, rd);
    if MoveTask(p, v1, v2, t, rp, rd).Some? {
      MoveTaskValid(p, v1, v2, t, rp, rd);
    }
  }

  lemma MoveTaskFits(p: Plan, v1: Vehicle, v2: Vehicle, t: Task, rp: Fraction, rd: Fraction)
    requires v1 in p.routes && v2 in p.routes && v1 != v2 && t.weight <= v2.capacity
    requires RouteOk(p.routes[v2], v2.capacity) && t !in Tasks(p.routes[v2])
    requires IndexOf(p.routes[v1], Pickup, t) >= 0
    ensures var res := MoveTask(p, v1, v2, t, rp, rd);
      && (res.Some? <==> LoadFits(Inserted(p.routes[v2], t, v2.capacity, rp, rd), v2.capacity))
      && (|p.routes[v2]| <= 2 ==> res.Some?)
  {
    var r1, r2 := p.routes[v1], p.routes[v2];
    InsertedFits(r2, t, v2.capacity, rp, rd);
    MoveTaskIs(p, v1, v2, t, rp, rd);
    var pre := Plan(p.routes[v1 := SourceRoute(r1, t, v1.capacity)][v2 := Inserted(r2, t, v2.capacity, rp, rd)], p.index[t := v2]);
    assert pre.routes[v2] == Inserted(r2, t, v2.capacity, rp, rd);
  }

  lemma MoveTaskValid(p: Plan, v1: Vehicle, v2: Vehicle, t: Task, rp: Fraction, rd: Fraction)
    requires ValidPlan(p) && v1 in p.routes && v2 in p.routes && v1 != v2
    requires t in p.index && p.index[t] == v1 && t.weight <= v2.capacity
    requires RouteOk(p.routes[v1], v1.capacity) && RouteOk(p.routes[v2], v2.capacity)
    requires t in Tasks(p.routes[v1]) && t !in Tasks(p.routes[v2])
    requires IndexOf(p.routes[v1], Pickup, t) >= 0
    requires MoveTask(p, v1, v2, t, rp, rd).Some?
    ensures MovedTo(p, MoveTask(p, v1, v2, t, rp, rd).value, v1, v2, t, rp, rd)
  {
    var r1, r2 := p.routes[v1], p.routes[v2];
    var a := SourceRoute(r1, t, v1.capacity);
    var ins := Inserted(r2, t, v2.capacity, rp, rd);
    MoveTaskIs(p, v1, v2, t, rp, rd);
    var pre := Plan(p.routes[v1 := a][v2 := ins], p.index[t := v2]);
    assert pre.routes[v2] == ins;
    var (b, ok) := Propagate(ins, 0, v2.capacity);
    var q := Plan(p.routes[v1 := a][v2 := b], p.index[t := v2]);
    assert pre.routes[v2 := b] == q.routes;
    assert Commit(pre, v2) == Some(q);
    SourceSide(r1, t, v1.capacity);
    InsertedValid(r2, t, v2.capacity, rp, rd);
    MovedToHolds(p, v1, v2, t, rp, rd, a, b);
  }

  lemma MovedToHolds(p: Plan, v1: Vehicle, v2: Vehicle, t: Task, rp: Fraction, rd: Fraction, a: Route, b: Route)
    requires ValidPlan(p) && v1 in p.routes && v2 in p.routes && v1 != v2
    requires t in p.index && p.index[t] == v1
    requires RouteOk(a, v1.capacity) && RouteOk(b, v2.capacity)
    requires Tasks(a) == Tasks(p.routes[v1]) - {t} && Tasks(b) == Tasks(p.routes[v2]) + {t}
    requires SameKeys(RemoveTask(p.routes[v1], t), a)
    requires SameKeys(Inserted(p.routes[v2], t, v2.capacity, rp, rd), b)
    ensures MovedTo(p, Plan(p.routes[v1 := a][v2 := b], p.index[t := v2]), v1, v2, t, rp, rd)
  {
    var q := Plan(p.routes[v1 := a][v2 := b], p.index[t := v2]);
    ReplaceTwo(p, v1, v2, t, a, b);
    assert q.routes[v1] == a && q.routes[v2] == b;
    assert q.routes.Keys == p.routes.Keys;
    assert forall u :: u in p.routes && u != v1 && u != v2 ==> q.routes[u] == p.routes[u];
  }

  /** v1's route after changingVehicle: t's steps removed, then the annotations
      recomputed from t's old pickup position when that is still a position. */
  function SourceRoute(r: Route, t: Task, cap: int): Route
    requires IndexOf(r, Pickup, t) >= 0
  {
    var s := RemoveTask(r, t);
    var pi := IndexOf(r, Pickup, t);
    if pi < |s| then Propagate(s, pi, cap).0 else s
  }

  /** The old vehicle's side of changingVehicle keeps its route valid and drops t. */
  lemma SourceSide(r: Route, t: Task, cap: nat)
    requires RouteOk(r, cap) && t in Tasks(r)
    ensures IndexOf(r, Pickup, t) >= 0
    ensures RouteOk(SourceRoute(r, t, cap), cap)
    ensures Tasks(SourceRoute(r, t, cap)) == Tasks(r) - {t}
    ensures SameKeys(RemoveTask(r, t), SourceRoute(r, t, cap))
  {
    PairPositions(r, t);
    var pi, di := IndexOf(r, Pickup, t), IndexOf(r, Delivery, t);
    RemoveStepsIsRemovePair(r, t);
    RemoveTaskOk(r, pi, di, cap);
    SameKeysShape(RemoveTask(r, t), SourceRoute(r, t, cap));
  }

  /** Between two different vehicles, changingVehicle replaces v1's route by its
      source route and v2's by the insertion, and commits on v2. */
  lemma MoveTaskIs(p: Plan, v1: Vehicle, v2: Vehicle, t: Task, rp: Fraction, rd: Fraction)
    requires v1 in p.routes && v2 in p.routes && v1 != v2 && IndexOf(p.routes[v1], Pickup, t) >= 0
    requires |p.routes[v2]| > 2 || t.weight <= v2.capacity
    ensures MoveTask(p, v1, v2, t, rp, rd)
         == Commit(Plan(p.routes[v1 := SourceRoute(p.routes[v1], t, v1.capacity)]
                                 [v2 := Inserted(p.routes[v2], t, v2.capacity, rp, rd)],
                        p.index[t := v2]), v2)
  {
    var r1 := p.routes[v1];
    var s1 := RemoveTask(r1, t);
    var ins := Inserted(p.routes[v2], t, v2.capacity, rp, rd);
    var q1 := TakeTask(p, v1, t);
    assert q1.routes[v2] == p.routes[v2];
    var q2 := GiveTask(q1, v2, t, rp, rd);
    assert q2 == Plan(p.routes[v1 := s1][v2 := ins], p.index[t := v2]);
    var q3 := Settle(q2, v1, IndexOf(r1, Pickup, t));
    assert q3 == Plan(p.routes[v1 := SourceRoute(r1, t, v1.capacity)][v2 := ins], p.index[t := v2]);
  }

  /** Giving v1 and v2 new valid routes, with t moved from the first to the second,
      keeps a valid plan valid. */
  lemma ReplaceTwo(p: Plan, v1: Vehicle, v2: Vehicle, t: Task, a: Route, b: Route)
    requires ValidPlan(p) && v1 in p.routes && v2 in p.routes && v1 != v2
    requires t in p.index && p.index[t] == v1
    requires RouteOk(a, v1.capacity) && RouteOk(b, v2.capacity)
    requires Tasks(a) == Tasks(p.routes[v1]) - {t} && Tasks(b) == Tasks(p.routes[v2]) + {t}
    ensures ValidPlan(Plan(p.routes[v1 := a][v2 := b], p.index[t := v2]))
  {
    var q := Plan(p.routes[v1 := a][v2 := b], p.index[t := v2]);
    assert forall u :: u in q.routes ==> RouteOk(q.routes[u], u.capacity);
    MoveIndex(p, q, v1, v2, t);
  }

  // ---------------------------------------------------------------------------
  // changingVActionOrder

  /** changingVActionOrder(A, v, i, j) on the plan value: refuse the exchanges its
      guards rule out; otherwise exchange the steps at i and j and keep the plan
      only when recomputing the annotations from i succeeds. */
  function Reorder(p: Plan, v: Vehicle, i: nat, j: nat): Option<Plan>
    requires v in p.routes && i < j < |p.routes[v]|
  {
    var r := p.routes[v];
    if !SwapAllowed(r, i, j) then None
    else
      var (s, ok) := Propagate(Swap(r, i, j), i, v.capacity);
      if ok then Some(p.(routes := p.routes[v := s])) else None
  }

  /** Replacing a route by one serving the same tasks keeps the index in agreement. */
  lemma SameTasksIndex(p: Plan, v: Vehicle, s: Route)
    requires IndexAgrees(p) && v in p.routes && Tasks(s) == Tasks(p.routes[v])
    ensures IndexAgrees(p.(routes := p.routes[v := s]))
  {
  }

  /** On a valid plan, exchanging the steps at i and j succeeds exactly when the
      exchanged route is still well formed and never overloads the vehicle, and then
      the plan is valid, the index unchanged, and the route is the exchanged one,
      re-annotated. */
  lemma ReorderOk(p: Plan, v: Vehicle, i: nat, j: nat)
    requires ValidPlan(p) && v in p.routes && i < j < |p.routes[v]|
    ensures var r := p.routes[v];
      var res := Reorder(p, v, i, j);
      && (res.Some? <==> WellFormed(Swap(r, i, j)) && LoadFits(Swap(r, i, j), v.capacity))
      && (res.Some? ==>
            && ValidPlan(res.value)
            && res.value.index == p.index
            && res.value.routes.Keys == p.routes.Keys
            && SameKeys(Swap(r, i, j), res.value.routes[v])
            && (forall u :: u in p.routes && u != v ==> res.value.routes[u] == p.routes[u]))
  {
    var r := p.routes[v];
    var s := Swap(r, i, j);
    var cap := v.capacity;
    assert RouteOk(r, cap);
    SwapShape(r, i, j);
    forall m | 0 <= m < i ensures s[m] == r[m] && Carried(s, m) == Carried(r, m) {
      assert s[..m + 1] == r[..m + 1];
    }
    PropagateSpec(s, i, cap);
    if SwapAllowed(r, i, j) {
      var (s1, ok) := Propagate(s, i, cap);
      if ok {
        PropagateFeasible(s, i, cap);
        SameKeysShape(s, s1);
        SameTasksIndex(p, v, s1);
      } else {
        assert !LoadFits(s, cap);
      }
    }
  }

  // ---------------------------------------------------------------------------
  // The planners' edits of a cloned COD

  /** changingVehicle(A, v1, v2, t): edit a clone of A and return it, or null when
      v2 ends up overloaded. A is left as it was. A missing pickup of t in v1's route
      makes updateCapacity(v1, -1) throw, so it is excluded. */
  method ChangingVehicle(A: COD, v1: Vehicle, v2: Vehicle, t: Task, rp: Fraction, rd: Fraction)
    returns (A1: COD?)
    requires v1 in A.routes && v2 in A.routes && IndexOf(A.routes[v1], Pickup, t) >= 0
    ensures A1 == null <==> MoveTask(A.Content(), v1, v2, t, rp, rd).None?
    ensures A1 != null ==> fresh(A1) && A1.Content() == MoveTask(A.Content(), v1, v2, t, rp, rd).value
  {
    var c := A.Clone();
    var indexT := IndexOf(A.routes[v1], Pickup, t);
    TakeFromVehicle(c, v1, t);
    AddToVehicle(c, v2, t, rp, rd);
    SettleVehicle(c, v1, indexT);
    var ok := c.UpdateCapacity(v2, 0);
    A1 := if ok then c else null;
  }

  /** The two removals of changingVehicle, through LinkedList.remove: t's delivery,
      then its pickup. */
  method TakeFromVehicle(c: COD, v: Vehicle, t: Task)
    requires v in c.routes
    modifies c
    ensures c.Content() == TakeTask(old(c.Content()), v, t)
  {
    c.routes := c.routes[v := RemoveFirst(c.routes[v], NewDelivery(t, 0))];
    c.routes := c.routes[v := RemoveFirst(c.routes[v], NewPickup(t, 0))];
  }

  /** `if (indexT < A1.linkedVehicleTasks.get(v1).size()) A1.updateCapacity(v1, indexT)`,
      its result ignored. */
  method SettleVehicle(c: COD, v: Vehicle, start: nat)
    requires v in c.routes
    modifies c
    ensures c.Content() == Settle(old(c.Content()), v, start)
  {
    if start < |c.routes[v]| {
      var _ := c.UpdateCapacity(v, start);
    }
  }

  /** The branch of changingVehicle that puts t into v's route: two list insertions
      at drawn positions and an index entry on a route of more than two steps,
      COD.addTask otherwise. */
  method AddToVehicle(c: COD, v: Vehicle, t: Task, rp: Fraction, rd: Fraction)
    requires v in c.routes
    modifies c
    ensures c.Content() == GiveTask(old(c.Content()), v, t, rp, rd)
  {
    if |c.routes[v]| > 2 {
      var n := |c.routes[v]|;
      var indexP := NextInt(rp, n - 1);
      var indexD := NextInt(rd, n - indexP) + indexP;
      c.routes := c.routes[v := InsertAt(c.routes[v], indexD, NewDelivery(t, 0))];
      c.routes := c.routes[v := InsertAt(c.routes[v], indexP, NewPickup(t, 0))];
      c.index := c.index[t := v];
    } else {
      var _ := c.AddTask(v, t);
    }
  }

  /** The task index sends every task of v's route to v: COD.setNextVAction exits
      the program otherwise. */
  predicate IndexedTo(p: Plan, v: Vehicle)
    requires v in p.routes
  {
    forall m :: 0 <= m < |p.routes[v]| ==> p.routes[v][m].task in p.index && p.index[p.routes[v][m].task] == v
  }

  /** changingVActionOrder(A, v, i, j): check the guards on a clone, make the list
      edits of the planner, and return the clone iff recomputing from i succeeds. On
      a route without repeated steps the edits exchange the steps at i and j. */
  method ChangingVActionOrder(A: COD, v: Vehicle, i: nat, j: nat) returns (A1: COD?)
    requires v in A.routes && i < j < |A.routes[v]|
    requires Distinct(A.routes[v]) && IndexedTo(A.Content(), v)
    ensures A1 == null <==> Reorder(A.Content(), v, i, j).None?
    ensures A1 != null ==> fresh(A1) && A1.Content() == Reorder(A.Content(), v, i, j).value
  {
    var c := A.Clone();
    var r := c.routes[v];
    var va1, va2 := r[i], r[j];
    if va1.task == va2.task {
      return null;
    }
    if va1.kind == Pickup {
      var indexP1 := IndexOf(r, Delivery, va1.task);
      if indexP1 <= j {
        return null;
      }
    }
    if va2.kind == Delivery {
      var indexP2 := IndexOf(r, Pickup, va2.task);
      if indexP2 >= i {
        return null;
      }
    }
    assert SwapAllowed(r, i, j);
    Exchange(c, v, i, j);
    ReorderEditIsSwap(r, i, j);
    var ok := c.UpdateCapacity(v, i);
    A1 := if ok then c else null;
  }

  /** The list edits of changingVActionOrder on the clone, through LinkedList.remove
      and the two forms of COD.setNextVAction. */
  method Exchange(c: COD, v: Vehicle, i: nat, j: nat)
    requires v in c.routes && i < j < |c.routes[v]|
    requires forall k :: k in {i, j, j - 1, if i > 0 then i - 1 else 0} ==>
      c.routes[v][k].task in c.index && c.index[c.routes[v][k].task] == v
    modifies c
    ensures c.index == old(c.index)
    ensures c.routes == old(c.routes)[v := ReorderEdit(old(c.routes)[v], i, j)]
  {
    var r := c.routes[v];
    var va1, va2 := r[i], r[j];
    var vaPre1 := r[if i > 0 then i - 1 else 0];
    var vaPre2 := r[j - 1];
    var vaPost1 := r[i + 1];
    assert c.index[va1.task] == c.index[va2.task] == c.index[vaPre1.task] == c.index[vaPre2.task] == v;
    if SameKey(vaPost1, va2) {
      RemoveThenLink(c, v, va1, va2, va1);
    } else {
      ExchangeFar(c, v, va1, va2, vaPre1, vaPre2);
    }
  }

  /** The second form of the edits: take va2 out and put va1 after vaPre2, then take
      the first va1 out and put va2 where va1 was. */
  method ExchangeFar(c: COD, v: Vehicle, va1: VAction, va2: VAction, vaPre1: VAction, vaPre2: VAction)
    requires v in c.routes
    requires va1.task in c.index && va2.task in c.index && vaPre1.task in c.index && vaPre2.task in c.index
    requires c.index[va1.task] == c.index[va2.task] == c.index[vaPre1.task] == c.index[vaPre2.task] == v
    modifies c
    ensures c.index == old(c.index)
    ensures var r2 := RemoveFirst(InsertAfter(RemoveFirst(old(c.routes)[v], va2), vaPre2, va1), va1);
      c.routes == old(c.routes)[v := if SameKey(va1, vaPre1) then [va2] + r2 else InsertAfter(r2, vaPre1, va2)]
  {
    ghost var R0 := c.routes;
    RemoveThenLink(c, v, va2, vaPre2, va1);
    assert c.routes == R0[v := InsertAfter(RemoveFirst(R0[v], va2), vaPre2, va1)];
    RemoveThenPut(c, v, va1, vaPre1, va2);
  }

  /** LinkedList.remove(x) on v's route, then COD.setNextVAction(after, y, v). */
  method RemoveThenLink(c: COD, v: Vehicle, x: VAction, after: VAction, y: VAction)
    requires v in c.routes && after.task in c.index && y.task in c.index
    requires c.index[after.task] == c.index[y.task]
    modifies c
    ensures c.index == old(c.index)
    ensures c.routes == old(c.routes)[v := InsertAfter(RemoveFirst(old(c.routes)[v], x), after, y)]
  {
    c.routes := c.routes[v := RemoveFirst(c.routes[v], x)];
    c.SetNextVAction(Some(after), Some(y), v);
  }

  /** LinkedList.remove(x) on v's route, then y goes back in: in front when x was
      itself `after` (x was first), right after `after` otherwise. */
  method RemoveThenPut(c: COD, v: Vehicle, x: VAction, after: VAction, y: VAction)
    requires v in c.routes && after.task in c.index && y.task in c.index
    requires c.index[after.task] == v && c.index[y.task] == v
    modifies c
    ensures c.index == old(c.index)
    ensures var s := RemoveFirst(old(c.routes)[v], x);
      c.routes == old(c.routes)[v := if SameKey(x, after) then [y] + s else InsertAfter(s, after, y)]
  {
    c.routes := c.routes[v := RemoveFirst(c.routes[v], x)];
    if SameKey(x, after) {
      c.SetFirstVAction(v, Some(y));
    } else {
      c.SetNextVAction(Some(after), Some(y), v);
    }
  }
}
