/** selectInitialSolution, the cold start of both centralized planners: the tasks
    are handed out in turn, each to the first vehicle, counting cyclically from
    just after the one that took the previous task, that can carry it. */
module InitialSolution {
  import opened Logistics
  import opened VActions
  import opened Routes
  import opened RouteShapes
  import opened RouteEdits
  import opened Plans

  /** lastVehicle++, wrapping to 0 at the end of a list of n vehicles. */
  function Succ(c: nat, n: nat): (r: nat)
    requires c < n
    ensures r < n
  {
    if c + 1 == n then 0 else c + 1
  }

  /** The position k wrapping steps after pos. */
  function Steps(pos: nat, k: nat, n: nat): (r: nat)
    requires pos < n
    ensures r < n
    decreases k
  {
    if k == 0 then pos else Steps(Succ(pos, n), k - 1, n)
  }

  lemma {:induction false} StepsSucc(pos: nat, k: nat, n: nat)
    requires pos < n
    ensures Steps(pos, k + 1, n) == Succ(Steps(pos, k, n), n)
    decreases k
  {
    if k > 0 {
      StepsSucc(Succ(pos, n), k - 1, n);
    }
  }

  /** Fewer than n steps from pos visit pos, pos + 1, ..., n - 1, 0, 1, ... */
  lemma {:induction false} StepsValue(pos: nat, k: nat, n: nat)
    requires pos < n && k < n
    ensures Steps(pos, k, n) == if pos + k < n then pos + k else pos + k - n
    decreases k
  {
    if k > 0 {
      StepsValue(Succ(pos, n), k - 1, n);
    }
  }

  /** The number of refusals, counting from position pos and trying at most `left`
      vehicles, before one that can carry weight w; None when all of them refuse. */
  function FirstFit(order: seq<Vehicle>, w: nat, pos: nat, left: nat): (r: Option<nat>)
    requires pos < |order|
    ensures r.Some? ==> r.value < left && w <= order[Steps(pos, r.value, |order|)].capacity
    ensures r.Some? ==> forall k :: 0 <= k < r.value ==> order[Steps(pos, k, |order|)].capacity < w
    ensures r.None? <==> forall k :: 0 <= k < left ==> order[Steps(pos, k, |order|)].capacity < w
    decreases left
  {
    if left == 0 then None
    else if w <= order[pos].capacity then Some(0)
    else
      match FirstFit(order, w, Succ(pos, |order|), left - 1)
      case None => None
      case Some(m) => Some(m + 1)
  }

  /** The first vehicle that accepts is the one FirstFit names. */
  lemma {:induction false} FirstFitIs(order: seq<Vehicle>, w: nat, pos: nat, left: nat, m: nat)
    requires pos < |order| && m < left
    requires w <= order[Steps(pos, m, |order|)].capacity
    requires forall k :: 0 <= k < m ==> order[Steps(pos, k, |order|)].capacity < w
    ensures FirstFit(order, w, pos, left) == Some(m)
    decreases m
  {
    if m > 0 {
      assert order[Steps(pos, 0, |order|)].capacity < w;
      forall k | 0 <= k < m - 1 ensures order[Steps(Succ(pos, |order|), k, |order|)].capacity < w {
        assert Steps(pos, k + 1, |order|) == Steps(Succ(pos, |order|), k, |order|);
      }
      FirstFitIs(order, w, Succ(pos, |order|), left - 1, m - 1);
    }
  }

  /** The vehicle that gets a task of weight w when lastVehicle is at `last`, and
      the new value of lastVehicle, one past it. */
  function Place(order: seq<Vehicle>, w: nat, last: nat): Option<(nat, nat)>
    requires last < |order|
  {
    match FirstFit(order, w, last, |order|)
    case None => None
    case Some(m) =>
      var c := Steps(last, m, |order|);
      Some((c, Succ(c, |order|)))
  }

  /** The plan selectInitialSolution builds from p, handing out `tasks` in order
      with lastVehicle at `last`; None when some task fits no vehicle, where the
      planner gives up. */
  function ColdStart(p: Plan, order: seq<Vehicle>, tasks: seq<Task>, last: nat): Option<Plan>
    requires tasks != [] ==> last < |order|
    requires forall k :: 0 <= k < |order| ==> order[k] in p.routes
    decreases |tasks|
  {
    if tasks == [] then Some(p)
    else
      match Place(order, tasks[0].weight, last)
      case None => None
      case Some((c, next)) => ColdStart(AddTaskPlan(p, order[c], tasks[0]), order, tasks[1..], next)
  }

  /** No task is listed twice (a TaskSet). */
  predicate NoRepeats(tasks: seq<Task>)
  {
    forall a, b :: 0 <= a < b < |tasks| ==> tasks[a] != tasks[b]
  }

  /** The tasks of a list, as a set. */
  function Listed(tasks: seq<Task>): set<Task>
  {
    set t | t in tasks
  }

  /** No vehicle of the list can carry weight w. */
  predicate NoneCarries(order: seq<Vehicle>, w: nat)
  {
    forall k :: 0 <= k < |order| ==> order[k].capacity < w
  }

  /** n steps from any start reach every vehicle of the list. */
  lemma StepsCover(pos: nat, j: nat, n: nat)
    requires pos < n && j < n
    ensures Steps(pos, if j >= pos then j - pos else j + n - pos, n) == j
  {
    StepsValue(pos, if j >= pos then j - pos else j + n - pos, n);
  }

  /** Placement fails exactly when no vehicle of the list can carry the task. */
  lemma PlaceFails(order: seq<Vehicle>, w: nat, last: nat)
    requires last < |order|
    ensures Place(order, w, last).None? <==> NoneCarries(order, w)
  {
    var n := |order|;
    if Place(order, w, last).None? {
      forall j | 0 <= j < n ensures order[j].capacity < w {
        StepsCover(last, j, n);
      }
    }
  }

  /** Some task of the list fits no vehicle. */
  predicate SomeUnplaceable(order: seq<Vehicle>, tasks: seq<Task>)
  {
    exists k :: 0 <= k < |tasks| && NoneCarries(order, tasks[k].weight)
  }

  lemma UnplaceableCons(order: seq<Vehicle>, tasks: seq<Task>)
    requires tasks != []
    ensures SomeUnplaceable(order, tasks)
        <==> NoneCarries(order, tasks[0].weight) || SomeUnplaceable(order, tasks[1..])
  {
    if SomeUnplaceable(order, tasks) {
      var k :| 0 <= k < |tasks| && NoneCarries(order, tasks[k].weight);
      if k > 0 {
        assert tasks[1..][k - 1] == tasks[k];
      }
    }
    if SomeUnplaceable(order, tasks[1..]) {
      var k :| 0 <= k < |tasks[1..]| && NoneCarries(order, tasks[1..][k].weight);
      assert tasks[k + 1] == tasks[1..][k];
    }
  }

  lemma ListedCons(tasks: seq<Task>)
    requires tasks != []
    ensures Listed(tasks) == {tasks[0]} + Listed(tasks[1..])
  {
    assert tasks == [tasks[0]] + tasks[1..];
  }

  /** The cold start gives up exactly when some task fits no vehicle of the list
      (where the planner prints "Impossible to give task" and exits). */
  lemma {:induction false} ColdStartFails(p: Plan, order: seq<Vehicle>, tasks: seq<Task>, last: nat)
    requires tasks != [] ==> last < |order|
    requires forall k :: 0 <= k < |order| ==> order[k] in p.routes
    ensures ColdStart(p, order, tasks, last).None? <==> SomeUnplaceable(order, tasks)
    decreases |tasks|
  {
    if tasks != [] {
      PlaceFails(order, tasks[0].weight, last);
      UnplaceableCons(order, tasks);
      match Place(order, tasks[0].weight, last)
      case None =>
      case Some((c, next)) =>
        ColdStartFails(AddTaskPlan(p, order[c], tasks[0]), order, tasks[1..], next);
    }
  }

  /** When the cold start succeeds on a valid plan, it assigns each listed task to
      exactly one vehicle and keeps the plan valid. */
  lemma {:induction false} ColdStartValid(p: Plan, order: seq<Vehicle>, tasks: seq<Task>, last: nat)
    requires tasks != [] ==> last < |order|
    requires forall k :: 0 <= k < |order| ==> order[k] in p.routes
    requires ValidPlan(p) && NoRepeats(tasks)
    requires forall k :: 0 <= k < |tasks| ==> tasks[k] !in p.index
    ensures ColdStart(p, order, tasks, last).Some? ==>
      var q := ColdStart(p, order, tasks, last).value;
      && ValidPlan(q)
      && Assigned(q) == Assigned(p) + Listed(tasks)
      && q.routes.Keys == p.routes.Keys
    decreases |tasks|
  {
    if tasks != [] {
      var t := tasks[0];
      match Place(order, t.weight, last)
      case None =>
      case Some((c, next)) =>
        var v := order[c];
        assert t.weight <= v.capacity;
        AddTaskKeepsValid(p, v, t);
        var p' := AddTaskPlan(p, v, t);
        var rest := tasks[1..];
        forall k | 0 <= k < |rest| ensures rest[k] !in p'.index {
          assert rest[k] == tasks[k + 1] != tasks[0];
        }
        ColdStartValid(p', order, rest, next);
        ListedCons(tasks);
    }
  }

  /** selectInitialSolution: a new COD over `vehicles`, then each task of `tasks` in
      turn offered to the vehicles of `order` (the planner's shuffled or unshuffled
      copy of the list), starting after the previous placement. Where the planner
      prints a message and exits, ok is false. */
  method SelectInitialSolution(vehicles: seq<Vehicle>, order: seq<Vehicle>, tasks: seq<Task>)
    returns (A: COD, ok: bool)
    requires forall k :: 0 <= k < |order| ==> order[k] in vehicles
    requires tasks != [] ==> order != []
    ensures fresh(A)
    ensures ok <==> ColdStart(EmptyPlan(vehicles), order, tasks, 0).Some?
    ensures ok ==> A.Content() == ColdStart(EmptyPlan(vehicles), order, tasks, 0).value
  {
    A := new COD(vehicles);
    var lastVehicle: nat := 0;
    ok := true;
    var b := 0;
    while b < |tasks|
      invariant b <= |tasks|
      invariant order != [] ==> lastVehicle < |order|
      invariant forall k :: 0 <= k < |order| ==> order[k] in A.routes
      invariant ColdStart(EmptyPlan(vehicles), order, tasks, 0) == ColdStart(A.Content(), order, tasks[b..], lastVehicle)
    {
      var t := tasks[b];
      assert tasks[b..][0] == t && tasks[b..][1..] == tasks[b + 1..];
      var placed;
      placed, lastVehicle := PlaceTask(A, order, t, lastVehicle);
      if !placed {
        ok := false;
        return;
      }
      b := b + 1;
    }
  }

  /** The inner loop of selectInitialSolution: addTask on vehicle after vehicle,
      lastVehicle counting up and wrapping, until one accepts or all have refused. */
  method PlaceTask(A: COD, order: seq<Vehicle>, t: Task, last: nat) returns (placed: bool, next: nat)
    requires last < |order| && forall k :: 0 <= k < |order| ==> order[k] in A.routes
    modifies A
    ensures next < |order|
    ensures placed <==> Place(order, t.weight, last).Some?
    ensures placed ==>
      && A.Content() == AddTaskPlan(old(A.Content()), order[Place(order, t.weight, last).value.0], t)
      && next == Place(order, t.weight, last).value.1
    ensures !placed ==> A.Content() == old(A.Content())
  {
    var n := |order|;
    var lastVehicle := last;
    var nbTry := 1;
    placed := A.AddTask(order[lastVehicle], t);
    lastVehicle := lastVehicle + 1;
    while !placed
      invariant 1 <= nbTry <= n
      invariant lastVehicle == Steps(last, nbTry - 1, n) + 1
      invariant !placed ==> A.Content() == old(A.Content())
      invariant forall k :: 0 <= k < nbTry - 1 ==> order[Steps(last, k, n)].capacity < t.weight
      invariant placed <==> t.weight <= order[Steps(last, nbTry - 1, n)].capacity
      invariant placed ==> A.Content() == AddTaskPlan(old(A.Content()), order[Steps(last, nbTry - 1, n)], t)
      decreases n - nbTry
    {
      if nbTry == n {
        return false, 0;
      }
      StepsSucc(last, nbTry - 1, n);
      nbTry := nbTry + 1;
      if lastVehicle == n {
        lastVehicle := 0;
      }
      placed := A.AddTask(order[lastVehicle], t);
      lastVehicle := lastVehicle + 1;
    }
    FirstFitIs(order, t.weight, last, n, nbTry - 1);
    if lastVehicle == n {
      lastVehicle := 0;
    }
    next := lastVehicle;
  }
}
