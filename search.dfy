/** The neighbourhood and the choice step of the local search, shared word for
    word by the current centralized agent and both auction agents:
    chooseNeighbors builds the list of plans one move away from the current
    one, localChoice picks among the cheapest of them. */
module Search {
  import opened Logistics
  import opened VActions
  import opened Routes
  import opened RouteShapes
  import opened RouteEdits
  import opened Plans
  import opened Costs
  import opened Moves

  /** The two numbers a call of changingVehicle draws (indexP and indexD) when it
      puts task t into vehicle v: each call uses its own `new Random()`. */
  type Draws = (Vehicle, Task) -> (Fraction, Fraction)

  /** The structure of a plan, annotations aside: every route well formed and the
      index in agreement with the routes. */
  predicate Shaped(p: Plan)
  {
    (forall v {:trigger WellFormed(p.routes[v])} :: v in p.routes ==> WellFormed(p.routes[v]))
    && IndexAgrees(p)
  }

  lemma ValidIsShaped(p: Plan)
    requires ValidPlan(p)
    ensures Shaped(p)
  {
    forall v | v in p.routes ensures WellFormed(p.routes[v]) {
      assert RouteOk(p.routes[v], v.capacity);
    }
  }

  /** A vehicle with something to do: COD.nextVAction(v) is not null. */
  predicate Busy(p: Plan, v: Vehicle)
  {
    v in p.routes && p.routes[v] != []
  }

  /** The plans of a list of COD objects, in list order. */
  function Contents(N: seq<COD>): (ps: seq<Plan>)
    reads N
    ensures |ps| == |N|
  {
    if N == [] then [] else Contents(N[..|N| - 1]) + [N[|N| - 1].Content()]
  }

  lemma {:induction false} ContentsAt(N: seq<COD>, k: nat)
    requires k < |N|
    ensures Contents(N)[k] == N[k].Content()
    decreases |N|
  {
    if k < |N| - 1 {
      ContentsAt(N[..|N| - 1], k);
    }
  }

  /** Every listed task is indexed to a vehicle whose route holds its pickup. */
  predicate Located(p: Plan, tasks: seq<Task>)
  {
    forall k :: 0 <= k < |tasks| ==>
      tasks[k] in p.index && p.index[tasks[k]] in p.routes
      && IndexOf(p.routes[p.index[tasks[k]]], Pickup, tasks[k]) >= 0
  }

  lemma ShapedLocated(p: Plan, tasks: seq<Task>)
    requires Shaped(p) && forall k :: 0 <= k < |tasks| ==> tasks[k] in p.index
    ensures Located(p, tasks)
  {
    forall k | 0 <= k < |tasks|
      ensures p.index[tasks[k]] in p.routes && IndexOf(p.routes[p.index[tasks[k]]], Pickup, tasks[k]) >= 0
    {
      var v := p.index[tasks[k]];
      assert WellFormed(p.routes[v]);
      PairPositions(p.routes[v], tasks[k]);
    }
  }

  lemma ShapedOrderable(p: Plan, v: Vehicle)
    requires Shaped(p) && v in p.routes
    ensures Distinct(p.routes[v]) && IndexedTo(p, v)
  {
    assert WellFormed(p.routes[v]);
    forall m | 0 <= m < |p.routes[v]| ensures p.routes[v][m].task in p.index && p.index[p.routes[v][m].task] == v {
      assert p.routes[v][m].task in Tasks(p.routes[v]);
    }
  }

  // ---------------------------------------------------------------------------
  // The neighbours, as a list of plan values

  /** The plan of a successful move as a list of one, a failed move as none. */
  function AsList(o: Option<Plan>): (ps: seq<Plan>)
    ensures o.None? <==> ps == []
    ensures o.Some? ==> ps == [o.value]
  {
    match o
    case Some(q) => [q]
    case None => []
  }

  /** Task t is indexed to a vehicle whose route holds its pickup. */
  predicate LocatedTask(p: Plan, t: Task)
  {
    t in p.index && p.index[t] in p.routes && IndexOf(p.routes[p.index[t]], Pickup, t) >= 0
  }

  /** The neighbour the inner loop of chooseNeighbors adds for task t and vehicle
      v, if any: t must be on vRand and not too heavy for v, and the move must
      succeed. */
  function TaskMove(p: Plan, vRand: Vehicle, v: Vehicle, t: Task, draws: Draws): seq<Plan>
    requires vRand in p.routes && v in p.routes && LocatedTask(p, t)
  {
    if p.index[t] == vRand && t.weight <= v.capacity then
      AsList(MoveTask(p, vRand, v, t, draws(v, t).0, draws(v, t).1))
    else []
  }

  /** The moves of the tasks in ts that vRand carries, to vehicle v, that succeed,
      in the order of ts. */
  function TaskMoves(p: Plan, vRand: Vehicle, v: Vehicle, ts: seq<Task>, draws: Draws): seq<Plan>
    requires vRand in p.routes && v in p.routes && Located(p, ts)
    decreases |ts|
  {
    if ts == [] then []
    else
      assert LocatedTask(p, ts[|ts| - 1]);
      TaskMoves(p, vRand, v, ts[..|ts| - 1], draws) + TaskMove(p, vRand, v, ts[|ts| - 1], draws)
  }

  /** One more task of the inner loop. */
  lemma TaskMovesStep(p: Plan, vRand: Vehicle, v: Vehicle, ts: seq<Task>, b: nat, draws: Draws)
    requires vRand in p.routes && v in p.routes && Located(p, ts) && b < |ts|
    ensures LocatedTask(p, ts[b]) && Located(p, ts[..b]) && Located(p, ts[..b + 1])
    ensures TaskMoves(p, vRand, v, ts[..b + 1], draws)
         == TaskMoves(p, vRand, v, ts[..b], draws) + TaskMove(p, vRand, v, ts[b], draws)
  {
    assert ts[..b + 1][..b] == ts[..b];
    assert LocatedTask(p, ts[b]);
  }

  /** The changingVehicle neighbours: for each vehicle of vs other than vRand, in
      order, the successful moves of vRand's tasks to it. */
  function VehicleMoves(p: Plan, vRand: Vehicle, vs: seq<Vehicle>, tasks: seq<Task>, draws: Draws): seq<Plan>
    requires vRand in p.routes && (forall k :: 0 <= k < |vs| ==> vs[k] in p.routes) && Located(p, tasks)
    decreases |vs|
  {
    if vs == [] then []
    else
      var rest := VehicleMoves(p, vRand, vs[..|vs| - 1], tasks, draws);
      var v := vs[|vs| - 1];
      if v == vRand then rest else rest + TaskMoves(p, vRand, v, tasks, draws)
  }

  /** What the pairs (i, j), i < j < n, contribute from the pair (i, j) on, in
      the order of two nested loops over i and j, pair (a, b) contributing f(a, b). */
  function Pairs(n: nat, i: nat, j: nat, f: (nat, nat) -> seq<Plan>): seq<Plan>
    requires i < j
    decreases n - i, n - j
  {
    if i >= n then []
    else if j >= n then Pairs(n, i + 1, i + 2, f)
    else f(i, j) + Pairs(n, i, j + 1, f)
  }

  /** The changingVActionOrder neighbour of the pair (i, j) of v's steps, if any. */
  function Exchanges(p: Plan, v: Vehicle): (nat, nat) -> seq<Plan>
    requires v in p.routes
  {
    (i: nat, j: nat) => if i < j < |p.routes[v]| then AsList(Reorder(p, v, i, j)) else []
  }

  /** The changingVActionOrder neighbours from the pair (i, j) on, pairs taken in
      the order of the planners' two nested loops. */
  function OrderMoves(p: Plan, v: Vehicle, i: nat, j: nat): seq<Plan>
    requires v in p.routes && i < j
  {
    Pairs(|p.routes[v]|, i, j, Exchanges(p, v))
  }

  /** All neighbours chooseNeighbors lists once it has drawn vRand. */
  function Neighbours(p: Plan, vRand: Vehicle, vehicles: seq<Vehicle>, tasks: seq<Task>, draws: Draws): seq<Plan>
    requires vRand in p.routes && (forall k :: 0 <= k < |vehicles| ==> vehicles[k] in p.routes) && Located(p, tasks)
  {
    VehicleMoves(p, vRand, vehicles, tasks, draws) + OrderMoves(p, vRand, 0, 1)
  }

  /** What every neighbour of a valid plan is: a valid plan with the same vehicles
      and the same tasks, every task on one vehicle. */
  predicate Neighbour(p: Plan, q: Plan)
  {
    ValidPlan(q) && q.routes.Keys == p.routes.Keys && Assigned(q) == Assigned(p)
  }

  lemma {:induction false} TaskMovesValid(p: Plan, vRand: Vehicle, v: Vehicle, ts: seq<Task>, draws: Draws)
    requires ValidPlan(p) && vRand in p.routes && v in p.routes && v != vRand && Located(p, ts)
    ensures forall k :: 0 <= k < |TaskMoves(p, vRand, v, ts, draws)| ==> Neighbour(p, TaskMoves(p, vRand, v, ts, draws)[k])
    decreases |ts|
  {
    if ts != [] {
      var ts' := ts[..|ts| - 1];
      assert Located(p, ts') by {
        forall k | 0 <= k < |ts'| ensures ts'[k] == ts[k] { }
      }
      TaskMovesValid(p, vRand, v, ts', draws);
      var t := ts[|ts| - 1];
      assert LocatedTask(p, t);
      var rest, here := TaskMoves(p, vRand, v, ts', draws), TaskMove(p, vRand, v, t, draws);
      assert TaskMoves(p, vRand, v, ts, draws) == rest + here;
      TaskMoveValid(p, vRand, v, t, draws);
      forall k | 0 <= k < |rest + here|
        ensures Neighbour(p, (rest + here)[k])
      {
        if k >= |rest| {
          assert (rest + here)[k] == here[k - |rest|];
        }
      }
    }
  }

  /** The move of one task, when it succeeds, is a neighbour. */
  lemma TaskMoveValid(p: Plan, vRand: Vehicle, v: Vehicle, t: Task, draws: Draws)
    requires ValidPlan(p) && vRand in p.routes && v in p.routes && v != vRand && LocatedTask(p, t)
    ensures forall k :: 0 <= k < |TaskMove(p, vRand, v, t, draws)| ==> Neighbour(p, TaskMove(p, vRand, v, t, draws)[k])
  {
    if p.index[t] == vRand && t.weight <= v.capacity {
      MoveNeighbour(p, vRand, v, t, draws(v, t).0, draws(v, t).1);
    }
  }

  /** A successful changingVehicle move of a valid plan is a neighbour of it. */
  lemma MoveNeighbour(p: Plan, v1: Vehicle, v2: Vehicle, t: Task, rp: Fraction, rd: Fraction)
    requires ValidPlan(p) && v1 in p.routes && v2 in p.routes && v1 != v2
    requires t in p.index && p.index[t] == v1 && t.weight <= v2.capacity
    ensures IndexOf(p.routes[v1], Pickup, t) >= 0
    ensures MoveTask(p, v1, v2, t, rp, rd).Some? ==> Neighbour(p, MoveTask(p, v1, v2, t, rp, rd).value)
  {
    MoveTaskOk(p, v1, v2, t, rp, rd);
    var res := MoveTask(p, v1, v2, t, rp, rd);
    if res.Some? {
      assert res.value.index == p.index[t := v2];
      assert Assigned(res.value) == Assigned(p);
    }
  }

  lemma {:induction false} VehicleMovesValid(p: Plan, vRand: Vehicle, vs: seq<Vehicle>, tasks: seq<Task>, draws: Draws)
    requires ValidPlan(p) && vRand in p.routes && (forall k :: 0 <= k < |vs| ==> vs[k] in p.routes) && Located(p, tasks)
    ensures forall k :: 0 <= k < |VehicleMoves(p, vRand, vs, tasks, draws)| ==>
      Neighbour(p, VehicleMoves(p, vRand, vs, tasks, draws)[k])
    decreases |vs|
  {
    if vs != [] {
      VehicleMovesValid(p, vRand, vs[..|vs| - 1], tasks, draws);
      var v := vs[|vs| - 1];
      if v != vRand {
        TaskMovesValid(p, vRand, v, tasks, draws);
      }
    }
  }

  lemma {:induction false} OrderMovesValid(p: Plan, v: Vehicle, i: nat, j: nat)
    requires ValidPlan(p) && v in p.routes && i < j
    ensures forall k :: 0 <= k < |OrderMoves(p, v, i, j)| ==> Neighbour(p, OrderMoves(p, v, i, j)[k])
    decreases |p.routes[v]| - i, |p.routes[v]| - j
  {
    var n := |p.routes[v]|;
    if i < n {
      if j >= n {
        OrderMovesValid(p, v, i + 1, i + 2);
        assert OrderMoves(p, v, i, j) == OrderMoves(p, v, i + 1, i + 2);
      } else {
        OrderMovesValid(p, v, i, j + 1);
        ReorderOk(p, v, i, j);
        var res := Reorder(p, v, i, j);
        var here, rest := AsList(res), OrderMoves(p, v, i, j + 1);
        assert Exchanges(p, v)(i, j) == here;
        assert OrderMoves(p, v, i, j) == here + rest;
        if res.Some? {
          assert Assigned(res.value) == Assigned(p);
        }
        forall k | 0 <= k < |here + rest|
          ensures Neighbour(p, (here + rest)[k])
        {
          if k >= |here| {
            assert (here + rest)[k] == rest[k - |here|];
          }
        }
      }
    }
  }

  /** Every neighbour of a valid plan is valid, with the same vehicles and tasks. */
  lemma NeighboursValid(p: Plan, vRand: Vehicle, vehicles: seq<Vehicle>, tasks: seq<Task>, draws: Draws)
    requires ValidPlan(p) && vRand in p.routes && (forall k :: 0 <= k < |vehicles| ==> vehicles[k] in p.routes)
    requires Located(p, tasks)
    ensures forall q :: q in Neighbours(p, vRand, vehicles, tasks, draws) ==> Neighbour(p, q)
  {
    VehicleMovesValid(p, vRand, vehicles, tasks, draws);
    OrderMovesValid(p, vRand, 0, 1);
  }

  // ---------------------------------------------------------------------------
  // chooseNeighbors

  /** No object occurs twice in the list. */
  predicate Unique(N: seq<COD>)
  {
    N == [] || (N[|N| - 1] !in N[..|N| - 1] && Unique(N[..|N| - 1]))
  }

  /** Unique, stated position by position. */
  lemma {:induction false} UniqueMeans(N: seq<COD>)
    ensures Unique(N) <==> forall a, b :: 0 <= a < b < |N| ==> N[a] != N[b]
  {
    if N != [] {
      var M := N[..|N| - 1];
      UniqueMeans(M);
      assert forall a :: 0 <= a < |M| ==> M[a] == N[a];
      if !Unique(N) {
        if N[|N| - 1] in M {
          var a :| 0 <= a < |M| && M[a] == N[|N| - 1];
          assert N[a] == N[|N| - 1];
        }
      }
    }
  }

  /** chooseNeighbors(oldA): draw vehicles until one has a non-empty route (any
      busy vehicle may come out of the retry loop), then list the successful moves
      of its tasks to every other vehicle that can carry them, and the successful
      exchanges of every pair of its steps. Each neighbour is a new clone: none is
      oldA and none occurs twice. */
  method ChooseNeighbors(oldA: COD, vehicles: seq<Vehicle>, tasks: seq<Task>, draws: Draws)
    returns (vRand: Vehicle, N: seq<COD>)
    requires Shaped(oldA.Content())
    requires forall k :: 0 <= k < |vehicles| ==> vehicles[k] in oldA.routes
    requires forall k :: 0 <= k < |tasks| ==> tasks[k] in oldA.index
    requires exists k :: 0 <= k < |vehicles| && Busy(oldA.Content(), vehicles[k])
    ensures vRand in vehicles && Busy(oldA.Content(), vRand)
    ensures Located(oldA.Content(), tasks)
    ensures Contents(N) == Neighbours(oldA.Content(), vRand, vehicles, tasks, draws)
    ensures oldA !in N && Unique(N)
  {
    ghost var P := oldA.Content();
    ShapedLocated(P, tasks);
    vRand :| vRand in vehicles && vRand in oldA.routes && oldA.routes[vRand] != [];
    var N0 := VehicleNeighbours(oldA, vRand, vehicles, tasks, draws);
    ghost var M := Contents(N0);
    ShapedOrderable(P, vRand);
    N := OrderNeighbours(oldA, vRand, N0);
    assert Contents(N) == M + OrderMoves(P, vRand, 0, 1);
  }

  /** The first half of chooseNeighbors: for every vehicle other than vRand, in
      order, the moves of vRand's tasks to it. */
  method VehicleNeighbours(oldA: COD, vRand: Vehicle, vehicles: seq<Vehicle>, tasks: seq<Task>, draws: Draws)
    returns (N: seq<COD>)
    requires vRand in oldA.routes && (forall k :: 0 <= k < |vehicles| ==> vehicles[k] in oldA.routes)
    requires Located(oldA.Content(), tasks)
    ensures Contents(N) == VehicleMoves(oldA.Content(), vRand, vehicles, tasks, draws)
    ensures oldA !in N && Unique(N)
  {
    ghost var P := oldA.Content();
    N := [];
    var a := 0;
    while a < |vehicles|
      invariant 0 <= a <= |vehicles|
      invariant Contents(N) == VehicleMoves(P, vRand, vehicles[..a], tasks, draws)
      invariant oldA !in N && Unique(N)
    {
      assert vehicles[..a + 1][..a] == vehicles[..a];
      var v := vehicles[a];
      if v != vRand {
        ghost var CB := Contents(N);
        N := MovesTo(oldA, vRand, v, tasks, draws, N);
        assert Contents(N) == CB + TaskMoves(P, vRand, v, tasks, draws);
      }
      a := a + 1;
    }
    assert vehicles[..a] == vehicles;
  }

  /** The inner loop over the tasks: every task vRand carries that v can carry is
      tried, and the successful moves are added to N. */
  method MovesTo(oldA: COD, vRand: Vehicle, v: Vehicle, tasks: seq<Task>, draws: Draws, N: seq<COD>)
    returns (N': seq<COD>)
    requires vRand in oldA.routes && v in oldA.routes && v != vRand
    requires Located(oldA.Content(), tasks)
    requires oldA !in N && Unique(N)
    ensures Contents(N') == old(Contents(N)) + TaskMoves(oldA.Content(), vRand, v, tasks, draws)
    ensures oldA !in N' && Unique(N')
  {
    ghost var P := oldA.Content();
    ghost var CN := Contents(N);
    N' := N;
    var b := 0;
    while b < |tasks|
      invariant 0 <= b <= |tasks|
      invariant Contents(N') == CN + TaskMoves(P, vRand, v, tasks[..b], draws)
      invariant oldA !in N' && Unique(N')
    {
      TaskMovesStep(P, vRand, v, tasks, b, draws);
      ghost var CB := Contents(N');
      ghost var TMb := TaskMoves(P, vRand, v, tasks[..b], draws);
      ghost var step := TaskMove(P, vRand, v, tasks[b], draws);
      N' := AddMove(oldA, vRand, v, tasks[b], draws, N');
      Associative(CN, TMb, step);
      b := b + 1;
    }
    assert tasks[..b] == tasks;
  }

  /** One turn of the inner loop: if t is on vRand and v can carry it, try
      changingVehicle and keep the result when it is not null. */
  method AddMove(oldA: COD, vRand: Vehicle, v: Vehicle, t: Task, draws: Draws, N: seq<COD>)
    returns (N': seq<COD>)
    requires vRand in oldA.routes && v in oldA.routes && LocatedTask(oldA.Content(), t)
    requires oldA !in N && Unique(N)
    ensures Contents(N') == old(Contents(N)) + TaskMove(oldA.Content(), vRand, v, t, draws)
    ensures oldA !in N' && Unique(N')
  {
    N' := N;
    ghost var CB := Contents(N);
    ghost var step := TaskMove(oldA.Content(), vRand, v, t, draws);
    if oldA.index[t] == vRand && t.weight <= v.capacity {
      var (rp, rd) := draws(v, t);
      var A := ChangingVehicle(oldA, vRand, v, t, rp, rd);
      assert Contents(N) == CB;
      if A != null {
        N' := Append(N, A);
        assert step == [A.Content()];
      } else {
        AppendNothing(CB);
      }
    } else {
      AppendNothing(CB);
    }
  }

  /** The contributions of the pairs (i, i + 1) to (i, j - 1), in order. */
  function RowUpTo(i: nat, j: nat, f: (nat, nat) -> seq<Plan>): seq<Plan>
    requires i < j
    decreases j
  {
    if j == i + 1 then [] else RowUpTo(i, j - 1, f) + f(i, j - 1)
  }

  /** One more pair of row i. */
  lemma RowStep(i: nat, j: nat, f: (nat, nat) -> seq<Plan>)
    requires i < j
    ensures RowUpTo(i, j + 1, f) == RowUpTo(i, j, f) + f(i, j)
  {
  }

  /** The contributions of the rows 0 to i - 1 of the pairs below n, in order. */
  function RowsUpTo(n: nat, i: nat, f: (nat, nat) -> seq<Plan>): seq<Plan>
    requires i <= n
  {
    if i == 0 then [] else RowsUpTo(n, i - 1, f) + RowUpTo(i - 1, n, f)
  }

  /** One more row. */
  lemma RowsStep(n: nat, i: nat, f: (nat, nat) -> seq<Plan>)
    requires i < n
    ensures RowsUpTo(n, i + 1, f) == RowsUpTo(n, i, f) + RowUpTo(i, n, f)
  {
  }

  /** Having taken row i up to j, what is left of the pairs is the rest of that
      row and then the later rows. */
  lemma {:induction false} RowSplits(n: nat, i: nat, j: nat, f: (nat, nat) -> seq<Plan>)
    requires i < j <= n
    ensures RowUpTo(i, j, f) + Pairs(n, i, j, f) == RowUpTo(i, n, f) + Pairs(n, i + 1, i + 2, f)
    decreases n - j
  {
    if j < n {
      RowSplits(n, i, j + 1, f);
      Associative(RowUpTo(i, j, f), f(i, j), Pairs(n, i, j + 1, f));
    } else {
      assert j == n;
    }
  }

  /** The rows before i followed by the pairs from row i on are all of the pairs. */
  lemma {:induction false} RowsSplit(n: nat, i: nat, f: (nat, nat) -> seq<Plan>)
    requires i <= n
    ensures RowsUpTo(n, i, f) + Pairs(n, i, i + 1, f) == Pairs(n, 0, 1, f)
    decreases i
  {
    if i > 0 {
      var k := i - 1;
      var before, row, rest := RowsUpTo(n, k, f), RowUpTo(k, n, f), Pairs(n, k + 1, k + 2, f);
      RowsSplit(n, k, f);
      RowSplits(n, k, k + 1, f);
      assert RowUpTo(k, k + 1, f) == [];
      assert Pairs(n, k, k + 1, f) == row + rest;
      Associative(before, row, rest);
    }
  }

  /** The second half of chooseNeighbors: the exchanges of every pair i < j of
      vRand's steps, in the order of the two nested loops. */
  method OrderNeighbours(oldA: COD, vRand: Vehicle, N: seq<COD>) returns (N': seq<COD>)
    requires vRand in oldA.routes && Distinct(oldA.routes[vRand]) && IndexedTo(oldA.Content(), vRand)
    requires oldA !in N && Unique(N)
    ensures Contents(N') == old(Contents(N)) + OrderMoves(oldA.Content(), vRand, 0, 1)
    ensures oldA !in N' && Unique(N')
  {
    ghost var P := oldA.Content();
    ghost var F := Exchanges(P, vRand);
    ghost var CN := Contents(N);
    N' := N;
    var length := |oldA.routes[vRand]|;
    var i: nat := 0;
    AppendNothing(CN);
    while i < length
      invariant i <= length == |P.routes[vRand]| && P == oldA.Content()
      invariant Gathered(N', CN, RowsUpTo(length, i, F))
      invariant oldA !in N' && Unique(N')
    {
      N' := RowTurn(oldA, vRand, i, N', P, CN);
      i := i + 1;
    }
    AllRows(N', CN, length, F);
  }

  /** Once every row is taken, the list holds all of the pairs. */
  lemma AllRows(N: seq<COD>, CN: seq<Plan>, n: nat, f: (nat, nat) -> seq<Plan>)
    requires Gathered(N, CN, RowsUpTo(n, n, f))
    ensures Contents(N) == CN + Pairs(n, 0, 1, f)
  {
    RowsSplit(n, n, f);
    assert Pairs(n, n, n + 1, f) == [];
    AppendNothing(RowsUpTo(n, n, f));
  }

  /** What changingVActionOrder needs of v's route: no step twice, and every
      task on it indexed to v. */
  predicate Orderable(p: Plan, v: Vehicle)
  {
    v in p.routes && Distinct(p.routes[v]) && IndexedTo(p, v)
  }

  /** The plans of N are those of CN followed by more. */
  ghost predicate Gathered(N: seq<COD>, CN: seq<Plan>, more: seq<Plan>)
    reads N
  {
    Contents(N) == CN + more
  }

  /** One turn of the outer loop, with what it adds to the rows before it. */
  method RowTurn(oldA: COD, vRand: Vehicle, i: nat, N: seq<COD>, ghost P: Plan, ghost CN: seq<Plan>)
    returns (N': seq<COD>)
    requires P == oldA.Content() && Orderable(P, vRand) && i < |P.routes[vRand]|
    requires oldA !in N && Unique(N)
    requires Gathered(N, CN, RowsUpTo(|P.routes[vRand]|, i, Exchanges(P, vRand)))
    ensures Gathered(N', CN, RowsUpTo(|P.routes[vRand]|, i + 1, Exchanges(P, vRand)))
    ensures oldA !in N' && Unique(N')
  {
    ghost var F := Exchanges(P, vRand);
    ghost var n := |P.routes[vRand]|;
    RowsStep(n, i, F);
    ghost var before := RowsUpTo(n, i, F);
    ghost var row := RowUpTo(i, n, F);
    ghost var CB := Contents(N);
    assert Describes(F, P, vRand);
    N' := ExchangesOf(oldA, vRand, i, N, P, F);
    assert Contents(N') == CB + row;
    Associative(CN, before, row);
  }

  /** F gives, for every pair i < j of v's steps, the exchange neighbour of that
      pair; the fact is used wherever that neighbour is mentioned. */
  ghost predicate Describes(F: (nat, nat) -> seq<Plan>, P: Plan, v: Vehicle)
    requires v in P.routes
  {
    forall a: nat, b: nat {:trigger Reorder(P, v, a, b)} ::
      a < b < |P.routes[v]| ==> F(a, b) == AsList(Reorder(P, v, a, b))
  }

  /** One turn of the outer loop of the exchanges: the pairs (i, j) for every
      j > i, in order. */
  method ExchangesOf(oldA: COD, vRand: Vehicle, i: nat, N: seq<COD>, ghost P: Plan, ghost F: (nat, nat) -> seq<Plan>)
    returns (N': seq<COD>)
    requires P == oldA.Content() && Orderable(P, vRand) && i < |P.routes[vRand]| && Describes(F, P, vRand)
    requires oldA !in N && Unique(N)
    ensures Gathered(N', old(Contents(N)), RowUpTo(i, |P.routes[vRand]|, F))
    ensures oldA !in N' && Unique(N')
  {
    ghost var CN := Contents(N);
    N' := N;
    var length := |oldA.routes[vRand]|;
    var j: nat := i + 1;
    AppendNothing(CN);
    while j < length
      invariant i + 1 <= j <= length == |P.routes[vRand]| && P == oldA.Content()
      invariant Gathered(N', CN, RowUpTo(i, j, F))
      invariant oldA !in N' && Unique(N')
    {
      N' := ExchangeTurn(oldA, vRand, i, j, N', P, F, CN);
      j := j + 1;
    }
    assert j == length;
  }

  /** One pair (i, j) of the exchanges. */
  method ExchangeTurn(oldA: COD, vRand: Vehicle, i: nat, j: nat, N: seq<COD>, ghost P: Plan,
                      ghost F: (nat, nat) -> seq<Plan>, ghost CN: seq<Plan>)
    returns (N': seq<COD>)
    requires P == oldA.Content() && Orderable(P, vRand) && i < j < |P.routes[vRand]| && Describes(F, P, vRand)
    requires oldA !in N && Unique(N)
    requires Gathered(N, CN, RowUpTo(i, j, F))
    ensures Gathered(N', CN, RowUpTo(i, j + 1, F))
    ensures oldA !in N' && Unique(N')
  {
    RowStep(i, j, F);
    ghost var done := RowUpTo(i, j, F);
    ghost var step := AsList(Reorder(P, vRand, i, j));
    assert F(i, j) == step;
    N' := AddExchange(oldA, vRand, i, j, N);
    Associative(CN, done, step);
  }

  /** One turn of the inner loop of the exchanges: try changingVActionOrder on the
      pair (i, j) and keep the result when it is not null. */
  method AddExchange(oldA: COD, vRand: Vehicle, i: nat, j: nat, N: seq<COD>) returns (N': seq<COD>)
    requires vRand in oldA.routes && i < j < |oldA.routes[vRand]|
    requires Distinct(oldA.routes[vRand]) && IndexedTo(oldA.Content(), vRand)
    requires oldA !in N && Unique(N)
    ensures Contents(N') == old(Contents(N)) + AsList(Reorder(oldA.Content(), vRand, i, j))
    ensures oldA !in N' && Unique(N')
  {
    N' := N;
    ghost var CB := Contents(N);
    ghost var step := AsList(Reorder(oldA.Content(), vRand, i, j));
    var A := ChangingVActionOrder(oldA, vRand, i, j);
    assert Contents(N) == CB;
    if A != null {
      N' := Append(N, A);
      assert step == [A.Content()];
    } else {
      AppendNothing(CB);
    }
  }

  lemma Associative<T>(a: seq<T>, b: seq<T>, c: seq<T>)
    ensures (a + b) + c == a + (b + c)
  {
  }

  lemma AppendNothing<T>(a: seq<T>)
    ensures a + [] == a
  {
  }

  /** N.add(A) for a new object A. */
  method Append(N: seq<COD>, A: COD) returns (N': seq<COD>)
    requires A !in N
    ensures N' == N + [A]
    ensures Contents(N') == Contents(N) + [A.Content()]
    ensures Unique(N) ==> Unique(N')
  {
    N' := N + [A];
    assert N'[..|N'| - 1] == N;
  }

  // ---------------------------------------------------------------------------
  // localChoice

  /** Every plan of ps has a route for each listed vehicle. */
  predicate AllCover(ps: seq<Plan>, vehicles: seq<Vehicle>)
  {
    forall k :: 0 <= k < |ps| ==> Covers(ps[k], vehicles)
  }

  /** The cost C of each plan of ps. */
  function CostsOf(dist: Distance, ps: seq<Plan>, vehicles: seq<Vehicle>): (cs: seq<real>)
    requires AllCover(ps, vehicles)
    ensures |cs| == |ps|
    ensures forall k :: 0 <= k < |ps| ==> cs[k] == PlanCost(dist, ps[k], vehicles)
  {
    if ps == [] then [] else CostsOf(dist, ps[..|ps| - 1], vehicles) + [PlanCost(dist, ps[|ps| - 1], vehicles)]
  }

  /** The cost of the current choice after scanning cs: the first is taken, then
      every one that is no dearer. */
  function Best(cs: seq<real>): real
    requires cs != []
  {
    if |cs| == 1 then cs[0]
    else
      var b := Best(cs[..|cs| - 1]);
      if cs[|cs| - 1] <= b then cs[|cs| - 1] else b
  }

  /** The positions bestChoicesA holds after scanning cs, in the order they were put:
      a strictly cheaper cost clears it, an equal cost joins it. */
  function Ties(cs: seq<real>): (ts: seq<nat>)
    requires cs != []
    ensures ts != [] && forall k :: 0 <= k < |ts| ==> ts[k] < |cs|
  {
    if |cs| == 1 then [0]
    else
      var b := Best(cs[..|cs| - 1]);
      var c := cs[|cs| - 1];
      if c < b then [|cs| - 1]
      else if c == b then Ties(cs[..|cs| - 1]) + [|cs| - 1]
      else Ties(cs[..|cs| - 1])
  }

  /** The scan finds the minimum, and keeps exactly the positions where it is
      reached, in increasing order. */
  lemma {:induction false} TiesAreMinima(cs: seq<real>)
    requires cs != []
    ensures forall k :: 0 <= k < |cs| ==> Best(cs) <= cs[k]
    ensures forall k :: k in Ties(cs) <==> 0 <= k < |cs| && cs[k] == Best(cs)
    ensures Ties(cs) != []
    ensures forall a, b :: 0 <= a < b < |Ties(cs)| ==> Ties(cs)[a] < Ties(cs)[b]
    decreases |cs|
  {
    if |cs| > 1 {
      var cs' := cs[..|cs| - 1];
      TiesAreMinima(cs');
      assert forall k :: 0 <= k < |cs'| ==> cs'[k] == cs[k];
      forall k | k in Ties(cs') ensures k < |cs'| { }
    }
  }

  /** One more cost scanned. */
  lemma ScanStep(cs: seq<real>, i: nat)
    requires 0 < i < |cs|
    ensures var b := Best(cs[..i]);
      && Best(cs[..i + 1]) == (if cs[i] <= b then cs[i] else b)
      && Ties(cs[..i + 1]) == (if cs[i] < b then [i] else if cs[i] == b then Ties(cs[..i]) + [i] else Ties(cs[..i]))
  {
    assert cs[..i + 1][..i] == cs[..i];
  }

  /** localChoice(N, oldA) of the centralized agent: oldA when N is empty; otherwise
      scan N keeping the cheapest plans, and with probability 1/2 (coin < 0.5)
      return one of them, drawn with pick, else oldA. */
  method LocalChoice(N: seq<COD>, oldA: COD, vehicles: seq<Vehicle>, dist: Distance, coin: Fraction, pick: Fraction)
    returns (A: COD)
    requires forall k :: 0 <= k < |N| ==> Covers(N[k].Content(), vehicles)
    ensures N == [] || coin >= 0.5 ==> A == oldA
    ensures N != [] && coin < 0.5 ==>
      AllCover(Contents(N), vehicles) &&
      var cs := CostsOf(dist, Contents(N), vehicles);
      A == N[Ties(cs)[NextInt(pick, |Ties(cs)|)]]
    ensures N != [] && coin < 0.5 ==>
      A in N && forall k :: 0 <= k < |N| ==> PlanCost(dist, A.Content(), vehicles) <= PlanCost(dist, N[k].Content(), vehicles)
  {
    if N == [] {
      return oldA;
    }
    var ties := Scan(N, vehicles, dist);
    if coin < 0.5 {
      A := PickTie(N, ties, vehicles, dist, pick);
    } else {
      A := oldA;
    }
  }

  /** The random pick among the cheapest plans of N. */
  method PickTie(N: seq<COD>, ties: seq<nat>, vehicles: seq<Vehicle>, dist: Distance, pick: Fraction) returns (A: COD)
    requires N != [] && AllCover(Contents(N), vehicles)
    requires forall k :: 0 <= k < |N| ==> Contents(N)[k] == N[k].Content()
    requires ties == Ties(CostsOf(dist, Contents(N), vehicles))
    ensures A == N[ties[NextInt(pick, |ties|)]]
    ensures A in N && forall k :: 0 <= k < |N| ==> PlanCost(dist, A.Content(), vehicles) <= PlanCost(dist, N[k].Content(), vehicles)
  {
    ghost var cs := CostsOf(dist, Contents(N), vehicles);
    var k := NextInt(pick, |ties|);
    var j := ties[k];
    assert forall m :: 0 <= m < |N| ==> cs[j] <= cs[m] by {
      TiesAreMinima(cs);
      assert j in Ties(cs);
    }
    A := N[j];
    forall m | 0 <= m < |N|
      ensures PlanCost(dist, A.Content(), vehicles) <= PlanCost(dist, N[m].Content(), vehicles)
    {
      assert cs[j] <= cs[m];
    }
  }

  /** The loop of localChoice: the positions of N that bestChoicesA holds at the
      end, each cost computed by C. */
  method Scan(N: seq<COD>, vehicles: seq<Vehicle>, dist: Distance) returns (ties: seq<nat>)
    requires N != [] && forall k :: 0 <= k < |N| ==> Covers(N[k].Content(), vehicles)
    ensures forall k :: 0 <= k < |N| ==> Contents(N)[k] == N[k].Content()
    ensures AllCover(Contents(N), vehicles)
    ensures ties == Ties(CostsOf(dist, Contents(N), vehicles))
  {
    ghost var ps := Contents(N);
    forall k | 0 <= k < |N| ensures ps[k] == N[k].Content() {
      ContentsAt(N, k);
    }
    ghost var cs := CostsOf(dist, ps, vehicles);
    var best := C(N[0], vehicles, dist);
    ties := [0];
    var i := 1;
    assert cs[..1] == [cs[0]];
    while i < |N|
      invariant 1 <= i <= |N|
      invariant best == Best(cs[..i]) && ties == Ties(cs[..i])
    {
      ScanStep(cs, i);
      var costA := C(N[i], vehicles, dist);
      if costA <= best {
        if costA < best {
          ties := [];
        }
        best := costA;
        ties := ties + [i];
      }
      i := i + 1;
    }
    assert cs[..i] == cs;
  }
}
