/** The older centralized planner: the same cold start and the same
    changingVActionOrder, but changingVehicle moves only the first task of the
    source vehicle, to the front of the other vehicle's route, and localChoice
    counts the current plan among the candidates, so a round never makes the plan
    dearer. */
module OldCentralizedPlanner {
  import opened Logistics
  import opened VActions
  import opened Routes
  import opened RouteShapes
  import opened RouteEdits
  import opened Plans
  import opened Costs
  import opened Moves
  import opened Search
  import opened InitialSolution
  import opened CentralizedPlanner

  // ---------------------------------------------------------------------------
  // The draw of the source vehicle

  /** (int) (Math.random() * (listOfVehicles.size() - 1)), as written. */
  function OldDraw(r: Fraction, n: nat): int
    requires n >= 1
  {
    (r * (n - 1) as real).Floor
  }

  /** As written, the draw never names the last vehicle of the list. */
  lemma OldDrawNeverLast(r: Fraction, n: nat)
    requires n >= 2
    ensures 0 <= OldDraw(r, n) < n - 1
  {
    var m := (n - 1) as real;
    assert 0.0 <= r * m < m by {
      assert m - r * m == (1.0 - r) * m;
    }
  }

  /** So when only the last vehicle has something to do, no draw finds a busy
      vehicle and the do-while retry loop of chooseNeighbors never ends. */
  lemma OldRetryStuck(p: Plan, vehicles: seq<Vehicle>, r: Fraction)
    requires |vehicles| >= 2
    requires forall k :: 0 <= k < |vehicles| - 1 ==> !Busy(p, vehicles[k])
    ensures 0 <= OldDraw(r, |vehicles|) < |vehicles| - 1 && !Busy(p, vehicles[OldDraw(r, |vehicles|)])
  {
    OldDrawNeverLast(r, |vehicles|);
  }

  /** Two vehicles, one task, carried by the second: a valid plan on which the
      retry loop as written spins for ever. */
  lemma OldRetryExample()
    ensures var vs := [Vehicle(0, 0, 10, 1), Vehicle(1, 0, 10, 1)];
      var p := AddTaskPlan(EmptyPlan(vs), vs[1], Task(0, 1, 2, 1, 0));
      && ValidPlan(p) && Busy(p, vs[1])
      && forall r: Fraction :: 0 <= OldDraw(r, 2) < 1 && !Busy(p, vs[OldDraw(r, 2)])
  {
    var vs := [Vehicle(0, 0, 10, 1), Vehicle(1, 0, 10, 1)];
    var t := Task(0, 1, 2, 1, 0);
    EmptyPlanValid(vs);
    AddTaskKeepsValid(EmptyPlan(vs), vs[1], t);
    var p := AddTaskPlan(EmptyPlan(vs), vs[1], t);
    assert p.routes[vs[0]] == [];
    forall r: Fraction ensures 0 <= OldDraw(r, 2) < 1 && !Busy(p, vs[OldDraw(r, 2)]) {
      OldRetryStuck(p, vs, r);
    }
  }

  /** With Random.nextInt(size), as the current planner draws, every busy vehicle
      is the result of some draw, so the retry loop can end whenever the plan
      carries a task. */
  lemma DrawFindsBusy(p: Plan, vehicles: seq<Vehicle>, k: nat)
    requires k < |vehicles| && Busy(p, vehicles[k])
    ensures exists r: Fraction :: Busy(p, vehicles[NextInt(r, |vehicles|)])
  {
    NextIntReaches(k, |vehicles|);
    var r: Fraction := k as real / |vehicles| as real;
    assert Busy(p, vehicles[NextInt(r, |vehicles|)]);
  }

  // ---------------------------------------------------------------------------
  // changingVehicle, first task only

  /** changingVehicle(A, v1, v2) on the plan value: t = nextTask(v1) leaves v1,
      addTask(v2, t) puts it in front of v2's route (its result ignored),
      updateCapacity(v1, 0) (its result ignored), and the plan is kept only when
      updateCapacity(v2, 0) succeeds. */
  function FirstMove(p: Plan, v1: Vehicle, v2: Vehicle): Option<Plan>
    requires v1 in p.routes && v2 in p.routes && p.routes[v1] != []
  {
    var t := p.routes[v1][0].task;
    var q := TakeTask(p, v1, t);
    var q' := if t.weight <= v2.capacity then AddTaskPlan(q, v2, t) else q;
    var q'' := q'.(routes := q'.routes[v1 := Propagate(q'.routes[v1], 0, v1.capacity).0]);
    Commit(q'', v2)
  }

  /** The shape of FirstMove when the first step picks t up and v2 can carry t:
      v1 keeps its route without t, re-annotated, and t goes in front of v2's
      route, provided that route's annotations then need no change. */
  lemma FirstMoveIs(p: Plan, v1: Vehicle, v2: Vehicle)
    requires v1 in p.routes && v2 in p.routes && v1 != v2 && p.routes[v1] != []
    requires IndexOf(p.routes[v1], Pickup, p.routes[v1][0].task) == 0
    requires p.routes[v1][0].task.weight <= v2.capacity
    requires var b := Prepend(p.routes[v2], p.routes[v1][0].task, v2.capacity);
      Propagate(b, 0, v2.capacity) == (b, true)
    ensures var t := p.routes[v1][0].task;
      FirstMove(p, v1, v2)
      == Some(Plan(p.routes[v1 := SourceRoute(p.routes[v1], t, v1.capacity)]
                           [v2 := Prepend(p.routes[v2], t, v2.capacity)],
                   p.index[t := v2]))
  {
    var r1 := p.routes[v1];
    var t := r1[0].task;
    var s := RemoveTask(r1, t);
    var a := SourceRoute(r1, t, v1.capacity);
    var b := Prepend(p.routes[v2], t, v2.capacity);
    var q := TakeTask(p, v1, t);
    assert q.routes[v2] == p.routes[v2];
    var q' := AddTaskPlan(q, v2, t);
    assert q'.routes[v1] == s;
    assert Propagate(s, 0, v1.capacity).0 == a;
    var q'' := q'.(routes := q'.routes[v1 := a]);
    assert q''.routes[v2] == b;
    assert q''.(routes := q''.routes[v2 := b]) == Plan(p.routes[v1 := a][v2 := b], p.index[t := v2]);
  }

  /** On a valid plan the move of the first task to a vehicle that can carry it
      never fails: the task goes in front of v2's route, v1 keeps the rest of its
      route re-annotated, and the result is a valid plan with the same vehicles and
      tasks. */
  lemma FirstMoveOk(p: Plan, v1: Vehicle, v2: Vehicle)
    requires ValidPlan(p) && v1 in p.routes && v2 in p.routes && v1 != v2 && p.routes[v1] != []
    requires p.routes[v1][0].task.weight <= v2.capacity
    ensures var t := p.routes[v1][0].task;
      && IndexOf(p.routes[v1], Pickup, t) == 0
      && FirstMove(p, v1, v2)
         == Some(Plan(p.routes[v1 := SourceRoute(p.routes[v1], t, v1.capacity)]
                              [v2 := Prepend(p.routes[v2], t, v2.capacity)],
                      p.index[t := v2]))
      && Neighbour(p, FirstMove(p, v1, v2).value)
  {
    var r1, r2 := p.routes[v1], p.routes[v2];
    var t := r1[0].task;
    assert RouteOk(r1, v1.capacity) && RouteOk(r2, v2.capacity);
    FirstIsPickup(r1);
    IndexOfAt(r1, 0, Pickup, t);
    assert t in Tasks(r1);
    assert p.index[t] == v1;
    assert t !in Tasks(r2);
    SourceSide(r1, t, v1.capacity);
    var a := SourceRoute(r1, t, v1.capacity);
    var b := Prepend(r2, t, v2.capacity);
    PrependOk(r2, t, v2.capacity);
    ConsistentFeasible(b, v2.capacity);
    PropagateConsistent(b, v2.capacity);
    FirstMoveIs(p, v1, v2);
    var q := Plan(p.routes[v1 := a][v2 := b], p.index[t := v2]);
    ReplaceTwo(p, v1, v2, t, a, b);
    assert Assigned(q) == Assigned(p);
  }

  /** changingVehicle(A, v1, v2) of the older planner, on a clone of A. */
  method OldChangingVehicle(A: COD, v1: Vehicle, v2: Vehicle) returns (A1: COD?)
    requires v1 in A.routes && v2 in A.routes && A.routes[v1] != [] && A.routes[v1][0].kind == Pickup
    ensures A1 == null <==> FirstMove(A.Content(), v1, v2).None?
    ensures A1 != null ==> fresh(A1) && A1.Content() == FirstMove(A.Content(), v1, v2).value
  {
    var c := A.Clone();
    var t := c.NextTask(v1).value;
    TakeFromVehicle(c, v1, t);
    var _ := c.AddTask(v2, t);
    var _ := c.UpdateCapacity(v1, 0);
    var ok := c.UpdateCapacity(v2, 0);
    A1 := if ok then c else null;
  }

  // ---------------------------------------------------------------------------
  // chooseNeighbors

  /** The changingVehicle neighbours: for each vehicle of vs other than vRand, in
      order, the move of vRand's first task to it, tried only when the vehicle's
      capacity is strictly above the task's weight. */
  function FirstMoves(p: Plan, vRand: Vehicle, vs: seq<Vehicle>): seq<Plan>
    requires Busy(p, vRand) && forall k :: 0 <= k < |vs| ==> vs[k] in p.routes
    decreases |vs|
  {
    if vs == [] then []
    else
      var v := vs[|vs| - 1];
      FirstMoves(p, vRand, vs[..|vs| - 1])
      + if v != vRand && p.routes[vRand][0].task.weight < v.capacity then AsList(FirstMove(p, vRand, v)) else []
  }

  /** All neighbours the older chooseNeighbors lists once it has drawn vRand. */
  function OldNeighbours(p: Plan, vRand: Vehicle, vehicles: seq<Vehicle>): seq<Plan>
    requires Busy(p, vRand) && forall k :: 0 <= k < |vehicles| ==> vehicles[k] in p.routes
  {
    FirstMoves(p, vRand, vehicles) + OrderMoves(p, vRand, 0, 1)
  }

  /** Every first-task move of a valid plan is a neighbour. */
  lemma {:induction false} FirstMovesValid(p: Plan, vRand: Vehicle, vs: seq<Vehicle>)
    requires ValidPlan(p) && Busy(p, vRand) && forall k :: 0 <= k < |vs| ==> vs[k] in p.routes
    ensures forall k :: 0 <= k < |FirstMoves(p, vRand, vs)| ==> Neighbour(p, FirstMoves(p, vRand, vs)[k])
    decreases |vs|
  {
    if vs != [] {
      var v := vs[|vs| - 1];
      FirstMovesValid(p, vRand, vs[..|vs| - 1]);
      if v != vRand && p.routes[vRand][0].task.weight < v.capacity {
        FirstMoveOk(p, vRand, v);
      }
    }
  }

  /** The vehicles of vs, other than vRand, whose capacity is above the weight of
      vRand's first task. */
  function Takers(p: Plan, vRand: Vehicle, vs: seq<Vehicle>): set<nat>
    requires Busy(p, vRand)
  {
    set k | 0 <= k < |vs| && vs[k] != vRand && p.routes[vRand][0].task.weight < vs[k].capacity
  }

  lemma TakersSnoc(p: Plan, vRand: Vehicle, vs: seq<Vehicle>)
    requires Busy(p, vRand) && vs != []
    ensures var v := vs[|vs| - 1];
      Takers(p, vRand, vs)
      == Takers(p, vRand, vs[..|vs| - 1])
         + if v != vRand && p.routes[vRand][0].task.weight < v.capacity then {|vs| - 1} else {}
  {
    var vs' := vs[..|vs| - 1];
    forall k | 0 <= k < |vs'| ensures vs[k] == vs'[k] {
    }
  }

  /** On a valid plan no first-task move fails: one neighbour is listed for each
      vehicle that can take the task. */
  lemma {:induction false} FirstMovesCount(p: Plan, vRand: Vehicle, vs: seq<Vehicle>)
    requires ValidPlan(p) && Busy(p, vRand) && forall k :: 0 <= k < |vs| ==> vs[k] in p.routes
    ensures |FirstMoves(p, vRand, vs)| == |Takers(p, vRand, vs)|
    decreases |vs|
  {
    if vs != [] {
      var vs' := vs[..|vs| - 1];
      var v := vs[|vs| - 1];
      FirstMovesCount(p, vRand, vs');
      var taken := v != vRand && p.routes[vRand][0].task.weight < v.capacity;
      TakersSnoc(p, vRand, vs);
      if taken {
        assert FirstMove(p, vRand, v).Some? by {
          FirstMoveOk(p, vRand, v);
        }
      }
    }
  }

  lemma OldNeighboursValid(p: Plan, vRand: Vehicle, vehicles: seq<Vehicle>)
    requires ValidPlan(p) && Busy(p, vRand) && forall k :: 0 <= k < |vehicles| ==> vehicles[k] in p.routes
    ensures forall q :: q in OldNeighbours(p, vRand, vehicles) ==> Neighbour(p, q)
  {
    FirstMovesValid(p, vRand, vehicles);
    OrderMovesValid(p, vRand, 0, 1);
  }

  /** chooseNeighbors(oldA) of the older planner, with the source vehicle drawn
      from the whole list (see OldDraw for the draw as written): the first-task
      moves to every other vehicle, then the exchanges of every pair of steps. */
  method OldChooseNeighbors(oldA: COD, vehicles: seq<Vehicle>) returns (vRand: Vehicle, N: seq<COD>)
    requires Shaped(oldA.Content())
    requires forall k :: 0 <= k < |vehicles| ==> vehicles[k] in oldA.routes
    requires exists k :: 0 <= k < |vehicles| && Busy(oldA.Content(), vehicles[k])
    ensures vRand in vehicles && Busy(oldA.Content(), vRand)
    ensures Contents(N) == OldNeighbours(oldA.Content(), vRand, vehicles)
    ensures oldA !in N && Unique(N)
  {
    ghost var P := oldA.Content();
    vRand :| vRand in vehicles && vRand in oldA.routes && oldA.routes[vRand] != [];
    assert WellFormed(P.routes[vRand]);
    FirstIsPickup(P.routes[vRand]);
    var N0 := FirstNeighbours(oldA, vRand, vehicles);
    ghost var M := Contents(N0);
    ShapedOrderable(P, vRand);
    N := OrderNeighbours(oldA, vRand, N0);
    assert Contents(N) == M + OrderMoves(P, vRand, 0, 1);
  }

  /** The loop over the vehicles of the older chooseNeighbors. */
  method FirstNeighbours(oldA: COD, vRand: Vehicle, vehicles: seq<Vehicle>) returns (N: seq<COD>)
    requires vRand in oldA.routes && oldA.routes[vRand] != [] && oldA.routes[vRand][0].kind == Pickup
    requires forall k :: 0 <= k < |vehicles| ==> vehicles[k] in oldA.routes
    ensures Contents(N) == FirstMoves(oldA.Content(), vRand, vehicles)
    ensures oldA !in N && Unique(N)
  {
    ghost var P := oldA.Content();
    N := [];
    var a := 0;
    while a < |vehicles|
      invariant 0 <= a <= |vehicles|
      invariant Contents(N) == FirstMoves(P, vRand, vehicles[..a])
      invariant oldA !in N && Unique(N)
    {
      assert vehicles[..a + 1][..a] == vehicles[..a];
      N := AddFirstMove(oldA, vRand, vehicles[a], N);
      a := a + 1;
    }
    assert vehicles[..a] == vehicles;
  }

  /** One turn of that loop. */
  method AddFirstMove(oldA: COD, vRand: Vehicle, v: Vehicle, N: seq<COD>) returns (N': seq<COD>)
    requires vRand in oldA.routes && oldA.routes[vRand] != [] && oldA.routes[vRand][0].kind == Pickup
    requires v in oldA.routes
    requires oldA !in N && Unique(N)
    ensures Contents(N') == old(Contents(N))
      + if v != vRand && oldA.routes[vRand][0].task.weight < v.capacity then AsList(FirstMove(oldA.Content(), vRand, v)) else []
    ensures oldA !in N' && Unique(N')
  {
    N' := N;
    ghost var CB := Contents(N);
    if v != vRand && oldA.routes[vRand][0].task.weight < v.capacity {
      var A := OldChangingVehicle(oldA, vRand, v);
      assert Contents(N) == CB;
      if A != null {
        N' := Append(N, A);
      } else {
        AppendNothing(CB);
      }
    } else {
      AppendNothing(CB);
    }
  }

  // ---------------------------------------------------------------------------
  // localChoice and SLS

  /** localChoice(N, oldA) of the older planner: the scan starts from oldA itself,
      then takes every neighbour that is no dearer; with probability 1/2 one of the
      cheapest candidates is returned, else oldA. Either way the plan returned costs
      no more than oldA. */
  method OldLocalChoice(N: seq<COD>, oldA: COD, vehicles: seq<Vehicle>, dist: Distance, coin: Fraction, pick: Fraction)
    returns (A: COD)
    requires Covers(oldA.Content(), vehicles)
    requires forall k :: 0 <= k < |N| ==> Covers(N[k].Content(), vehicles)
    ensures coin >= 0.5 ==> A == oldA
    ensures coin < 0.5 ==>
      AllCover(Contents([oldA] + N), vehicles) &&
      var cs := CostsOf(dist, Contents([oldA] + N), vehicles);
      A == ([oldA] + N)[Ties(cs)[NextInt(pick, |Ties(cs)|)]]
    ensures A == oldA || A in N
    ensures PlanCost(dist, A.Content(), vehicles) <= PlanCost(dist, oldA.Content(), vehicles)
  {
    var all := [oldA] + N;
    forall k | 0 <= k < |all| ensures Covers(all[k].Content(), vehicles) {
      if k > 0 {
        assert all[k] == N[k - 1];
      }
    }
    A := ChooseAmong(all, vehicles, dist, coin, pick);
    assert A == oldA || A in N by {
      var j :| 0 <= j < |all| && all[j] == A;
      if j > 0 {
        assert N[j - 1] == A;
      }
    }
  }

  /** The body of localChoice once oldA heads the candidates. */
  method ChooseAmong(all: seq<COD>, vehicles: seq<Vehicle>, dist: Distance, coin: Fraction, pick: Fraction)
    returns (A: COD)
    requires all != [] && forall k :: 0 <= k < |all| ==> Covers(all[k].Content(), vehicles)
    ensures coin >= 0.5 ==> A == all[0]
    ensures coin < 0.5 ==>
      AllCover(Contents(all), vehicles) &&
      var cs := CostsOf(dist, Contents(all), vehicles);
      A == all[Ties(cs)[NextInt(pick, |Ties(cs)|)]]
    ensures A in all
    ensures PlanCost(dist, A.Content(), vehicles) <= PlanCost(dist, all[0].Content(), vehicles)
  {
    var ties := Scan(all, vehicles, dist);
    if coin < 0.5 {
      A := PickTie(all, ties, vehicles, dist, pick);
    } else {
      A := all[0];
    }
  }

  /** One round of the older loop: the plan becomes a neighbour or stays, and never
      gets dearer. */
  method OldIterate(oldA: COD, vehicles: seq<Vehicle>, tasks: seq<Task>, round: Round, dist: Distance)
    returns (A: COD)
    requires Current(oldA.Content(), vehicles, tasks) && tasks != []
    ensures A == oldA || Neighbour(oldA.Content(), A.Content())
    ensures Current(A.Content(), vehicles, tasks)
    ensures Covers(A.Content(), vehicles) && Covers(oldA.Content(), vehicles)
    ensures PlanCost(dist, A.Content(), vehicles) <= PlanCost(dist, oldA.Content(), vehicles)
  {
    ghost var P := oldA.Content();
    ValidIsShaped(P);
    assert tasks[0] in Assigned(P);
    SomeoneBusy(P, vehicles);
    var vRand, N := OldChooseNeighbors(oldA, vehicles);
    OldNeighboursValid(P, vRand, vehicles);
    forall k | 0 <= k < |N| ensures Neighbour(P, N[k].Content()) {
      ContentsAt(N, k);
      assert Contents(N)[k] in OldNeighbours(P, vRand, vehicles);
    }
    A := OldLocalChoice(N, oldA, vehicles, dist, round.coin, round.pick);
  }

  /** As written, the older SLS also runs its rounds with no task: the cold start
      leaves every route empty, and the draw, wherever it lands, names an idle
      vehicle, so the retry loop of chooseNeighbors never ends. */
  lemma OldNoTaskNoBusy(vehicles: seq<Vehicle>, r: Fraction)
    requires vehicles != []
    ensures ColdStart(EmptyPlan(vehicles), vehicles, [], 0) == Some(EmptyPlan(vehicles))
    ensures ValidPlan(EmptyPlan(vehicles))
    ensures 0 <= OldDraw(r, |vehicles|) < |vehicles| && !Busy(EmptyPlan(vehicles), vehicles[OldDraw(r, |vehicles|)])
  {
    EmptyPlanValid(vehicles);
    if |vehicles| >= 2 {
      OldDrawNeverLast(r, |vehicles|);
    }
  }

  /** SLS() of the older planner: the cold start over the lists as given, then one
      round per element of `rounds`. The plan returned costs no more than the cold
      start. With no task the search returns the empty plan at once, the guard
      this planner lacks (see OldNoTaskNoBusy). */
  method OldSLS(vehicles: seq<Vehicle>, tasks: seq<Task>, rounds: seq<Round>, dist: Distance)
    returns (A: COD, ok: bool)
    requires vehicles != [] && NoRepeats(tasks)
    requires |rounds| >= 1
    ensures ok <==> !SomeUnplaceable(vehicles, tasks)
    ensures ok ==> Current(A.Content(), vehicles, tasks)
    ensures ok ==>
      var cold := ColdStart(EmptyPlan(vehicles), vehicles, tasks, 0);
      cold.Some? && Covers(cold.value, vehicles) && Covers(A.Content(), vehicles)
      && PlanCost(dist, A.Content(), vehicles) <= PlanCost(dist, cold.value, vehicles)
    ensures tasks == [] ==> ok && A.Content() == EmptyPlan(vehicles)
  {
    if tasks == [] {
      A := new COD(vehicles);
      ok := true;
      EmptyPlanValid(vehicles);
      assert !SomeUnplaceable(vehicles, tasks);
      assert Covers(A.Content(), vehicles);
      return;
    }
    assert forall k :: 0 <= k < |vehicles| ==> vehicles[k] in vehicles;
    A, ok := SelectInitialSolution(vehicles, vehicles, tasks);
    ColdStartFails(EmptyPlan(vehicles), vehicles, tasks, 0);
    if !ok {
      return;
    }
    EmptyPlanValid(vehicles);
    ColdStartValid(EmptyPlan(vehicles), vehicles, tasks, 0);
    ghost var cold := A.Content();
    var i := 0;
    while i < |rounds|
      invariant i <= |rounds|
      invariant Current(A.Content(), vehicles, tasks)
      invariant Covers(A.Content(), vehicles) && Covers(cold, vehicles)
      invariant PlanCost(dist, A.Content(), vehicles) <= PlanCost(dist, cold, vehicles)
    {
      A := OldIterate(A, vehicles, tasks, rounds[i], dist);
      i := i + 1;
    }
  }
}
