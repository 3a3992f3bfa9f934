/** COD, the plan the centralized and auction planners search over: for each
    vehicle the ordered list of its steps, and for each task the vehicle that
    carries it. */
module Plans {
  import opened Logistics
  import opened VActions
  import opened Routes
  import opened RouteShapes
  import opened RouteEdits

  /** The contents of a COD: linkedVehicleTasks and taskVehiclePair. */
  datatype Plan = Plan(routes: map<Vehicle, Route>, index: map<Task, Vehicle>)

  /** taskVehiclePair names, for every task, the one vehicle whose route holds it. */
  predicate IndexAgrees(p: Plan)
  {
    && (forall v, t :: v in p.routes && t in Tasks(p.routes[v]) ==> t in p.index && p.index[t] == v)
    && (forall t :: t in p.index ==> p.index[t] in p.routes && t in Tasks(p.routes[p.index[t]]))
  }

  /** A plan the planners may hand on: every route well formed, correctly annotated,
      within its vehicle's capacity, and the index in agreement with the routes. */
  predicate ValidPlan(p: Plan)
  {
    (forall v {:trigger RouteOk(p.routes[v], v.capacity)} :: v in p.routes ==> RouteOk(p.routes[v], v.capacity))
    && IndexAgrees(p)
  }

  /** The tasks the plan carries. */
  function Assigned(p: Plan): set<Task>
  {
    p.index.Keys
  }

  /** The plan of new COD(vehicles): an empty route per vehicle, no task assigned. */
  function EmptyPlan(vehicles: seq<Vehicle>): Plan
  {
    Plan(map v | v in vehicles :: [], map[])
  }

  lemma EmptyPlanValid(vehicles: seq<Vehicle>)
    ensures ValidPlan(EmptyPlan(vehicles))
    ensures Assigned(EmptyPlan(vehicles)) == {}
    ensures EmptyPlan(vehicles).routes.Keys == set v | v in vehicles
  {
    var p := EmptyPlan(vehicles);
    forall v | v in p.routes ensures Tasks(p.routes[v]) == {} && WellFormed(p.routes[v]) {
      assert p.routes[v] == [];
    }
  }

  /** In a well-formed route the first step is a pickup, so the "first va wasnt
      pickup" exits of COD.nextVAction(v) and COD.nextTask(v) are never taken on a
      valid plan. */
  lemma FirstIsPickup(r: Route)
    requires WellFormed(r) && r != []
    ensures r[0].kind == Pickup
  {
    assert r[0].task in TasksOf(r, r[0].kind);
    assert r[0].task in TasksOf(r, Pickup);
  }

  /** The plan after COD.addTask(v, t) succeeds. */
  function AddTaskPlan(p: Plan, v: Vehicle, t: Task): Plan
    requires v in p.routes
  {
    Plan(p.routes[v := Prepend(p.routes[v], t, v.capacity)], p.index[t := v])
  }

  /** Giving an unassigned task that fits the vehicle to one vehicle of a valid plan
      keeps the plan valid and assigns exactly that task more. */
  lemma AddTaskKeepsValid(p: Plan, v: Vehicle, t: Task)
    requires ValidPlan(p) && v in p.routes && t !in p.index && t.weight <= v.capacity
    ensures ValidPlan(AddTaskPlan(p, v, t))
    ensures Assigned(AddTaskPlan(p, v, t)) == Assigned(p) + {t}
    ensures AddTaskPlan(p, v, t).routes.Keys == p.routes.Keys
  {
    var q := AddTaskPlan(p, v, t);
    assert t !in Tasks(p.routes[v]);
    PrependOk(p.routes[v], t, v.capacity);
    assert forall w :: w in q.routes ==> RouteOk(q.routes[w], w.capacity);
    AddTaskIndex(p, v, t);
  }

  lemma AddTaskIndex(p: Plan, v: Vehicle, t: Task)
    requires IndexAgrees(p) && v in p.routes && t !in p.index
    requires Tasks(Prepend(p.routes[v], t, v.capacity)) == Tasks(p.routes[v]) + {t}
    ensures IndexAgrees(AddTaskPlan(p, v, t))
  {
    var q := AddTaskPlan(p, v, t);
    forall w, u | w in q.routes && u in Tasks(q.routes[w]) ensures u in q.index && q.index[u] == w {
      if w != v {
        assert q.routes[w] == p.routes[w];
      }
    }
  }

  /** On a valid plan COD.updateCapacity(v, 0) changes nothing and succeeds. */
  lemma UpdateCapacityOnValid(p: Plan, v: Vehicle)
    requires ValidPlan(p) && v in p.routes
    ensures Propagate(p.routes[v], 0, v.capacity) == (p.routes[v], true)
  {
    assert RouteOk(p.routes[v], v.capacity);
    ConsistentFeasible(p.routes[v], v.capacity);
    PropagateConsistent(p.routes[v], v.capacity);
  }

  class COD {
    var routes: map<Vehicle, Route>
    var index: map<Task, Vehicle>

    function Content(): Plan
      reads this
    {
      Plan(routes, index)
    }

    /** new COD(listOfVehicles). */
    constructor(vehicles: seq<Vehicle>)
      ensures Content() == EmptyPlan(vehicles)
    {
      routes := map v | v in vehicles :: [];
      index := map[];
    }

    /** new COD(oldCOD): fresh lists of step copies and a copy of the index. */
    constructor Copy(other: COD)
      ensures Content() == other.Content()
    {
      routes := other.routes;
      index := other.index;
    }

    method Clone() returns (c: COD)
      ensures fresh(c) && c.Content() == Content()
    {
      c := new COD.Copy(this);
    }

    /** COD.nextVAction(va): the step after va in the route of the vehicle the index
        gives for va's task, or null when va is last or absent. */
    function NextVAction(va: VAction): (r: Option<VAction>)
      requires va.task in index && index[va.task] in routes
      reads this
      ensures var route := routes[index[va.task]];
        r.Some? <==> 0 <= Find(route, va) < |route| - 1
      ensures r.Some? ==> r.value == routes[index[va.task]][Find(routes[index[va.task]], va) + 1]
    {
      var route := routes[index[va.task]];
      var k := Find(route, va);
      if 0 <= k < |route| - 1 then Some(route[k + 1]) else None
    }

    /** COD.setNextVAction(vaOrig, vaNext, v): put vaNext right after vaOrig in v's
        route. A null vaOrig, or the two steps' tasks on different vehicles, makes
        the program exit; a null vaNext does nothing. */
    method SetNextVAction(vaOrig: Option<VAction>, vaNext: Option<VAction>, v: Vehicle)
      requires vaOrig.Some?
      requires vaNext.Some? ==> vaOrig.value.task in index && vaNext.value.task in index
                                && index[vaOrig.value.task] == index[vaNext.value.task] && v in routes
      modifies this
      ensures vaNext.None? ==> Content() == old(Content())
      ensures vaNext.Some? ==>
        Content() == old(Content()).(routes := old(routes)[v := InsertAfter(old(routes)[v], vaOrig.value, vaNext.value)])
    {
      if vaNext.None? {
        return;
      }
      var r := routes[v];
      var k := 0;
      while k < |r|
        invariant 0 <= k <= |r|
        invariant forall m :: 0 <= m < k ==> r[m] != vaOrig.value
      {
        if r[k] == vaOrig.value {
          FindAt(r, k, vaOrig.value);
          routes := routes[v := r[..k + 1] + [vaNext.value] + r[k + 1..]];
          return;
        }
        k := k + 1;
      }
    }

    /** COD.nextVAction(v): the first step of v's route, or null when it is empty; a
        first step that is not a pickup makes the program exit. */
    function FirstVAction(v: Vehicle): (r: Option<VAction>)
      requires v in routes
      requires routes[v] != [] ==> routes[v][0].kind == Pickup
      reads this
      ensures r.None? <==> routes[v] == []
      ensures r.Some? ==> r.value == routes[v][0] && r.value.kind == Pickup
    {
      if |routes[v]| > 0 then Some(routes[v][0]) else None
    }

    /** COD.nextTask(v): the task of v's first step, or null. */
    function NextTask(v: Vehicle): (r: Option<Task>)
      requires v in routes
      requires routes[v] != [] ==> routes[v][0].kind == Pickup
      reads this
      ensures r.None? <==> routes[v] == []
      ensures r.Some? ==> r.value in Tasks(routes[v]) && r.value == routes[v][0].task
    {
      if |routes[v]| > 0 then Some(routes[v][0].task) else None
    }

    /** COD.setNextVAction(vOrig, vaNext): put vaNext in front of vOrig's route and
        assign its task to vOrig; a null vaNext does nothing. */
    method SetFirstVAction(v: Vehicle, vaNext: Option<VAction>)
      requires vaNext.Some? ==> v in routes
      modifies this
      ensures vaNext.None? ==> Content() == old(Content())
      ensures vaNext.Some? ==>
        Content() == Plan(old(routes)[v := [vaNext.value] + old(routes)[v]], old(index)[vaNext.value.task := v])
    {
      if vaNext.Some? {
        routes := routes[v := [vaNext.value] + routes[v]];
        index := index[vaNext.value.task := v];
      }
    }

    /** COD.vehicle(va): the vehicle the index gives for va's task, or null. */
    function VehicleOf(va: VAction): (r: Option<Vehicle>)
      reads this
      ensures r.Some? <==> va.task in index
      ensures r.Some? ==> r.value == index[va.task]
    {
      if va.task in index then Some(index[va.task]) else None
    }

    /** COD.setVehicle(va, v). */
    method SetVehicle(va: VAction, v: Vehicle)
      modifies this
      ensures Content() == old(Content()).(index := old(index)[va.task := v])
    {
      index := index[va.task := v];
    }

    /** COD.addTask(v, t): when t fits the vehicle, put t's pickup and delivery in
        front of v's route, annotated from the capacity, and assign t to v. */
    method AddTask(v: Vehicle, t: Task) returns (ok: bool)
      requires t.weight <= v.capacity ==> v in routes
      modifies this
      ensures ok <==> t.weight <= v.capacity
      ensures ok ==> Content() == AddTaskPlan(old(Content()), v, t)
      ensures !ok ==> Content() == old(Content())
    {
      if v.capacity >= t.weight {
        var pickup := NewPickup(t, v.capacity - t.weight);
        var delivery := NewDelivery(t, v.capacity);
        index := index[t := v];
        routes := routes[v := [pickup] + ([delivery] + routes[v])];
        assert [pickup] + ([delivery] + old(routes)[v]) == Prepend(old(routes)[v], t, v.capacity);
        return true;
      }
      return false;
    }

    /** COD.updateCapacity(v, start): recompute the annotations of v's route from
        start on, stopping at the first pickup that overloads the vehicle. */
    method UpdateCapacity(v: Vehicle, start: nat) returns (ok: bool)
      requires v in routes
      requires routes[v] != [] ==> start < |routes[v]|
      modifies this
      ensures index == old(index)
      ensures routes == old(routes)[v := Propagate(old(routes)[v], start, v.capacity).0]
      ensures ok == Propagate(old(routes)[v], start, v.capacity).1
    {
      var r := routes[v];
      if r == [] {
        return true;
      }
      var k: nat;
      var pre: int;
      if start > 0 {
        var a, good := UpdateStep(r[start], r[start - 1].remaining);
        r := r[start := a];
        if !good {
          routes := routes[v := r];
          return false;
        }
        k, pre := start + 1, a.remaining;
      } else {
        var a, _ := UpdateStep(r[0], v.capacity);
        r := r[0 := a];
        k, pre := 1, a.remaining;
      }
      while k < |r|
        invariant k <= |r| == |old(routes)[v]|
        invariant routes == old(routes) && index == old(index)
        invariant Recompute(r, k, pre) == Propagate(old(routes)[v], start, v.capacity)
        decreases |r| - k
      {
        var a, good := UpdateStep(r[k], pre);
        r := r[k := a];
        if !good {
          routes := routes[v := r];
          return false;
        }
        k, pre := k + 1, a.remaining;
      }
      assert Recompute(r, k, pre) == (r, true);
      routes := routes[v := r];
      return true;
    }
  }

  /** One call of a step's updateCapacity. */
  method UpdateStep(a: VAction, before: int) returns (b: VAction, ok: bool)
    ensures (b, ok) == UpdateCapacity(a, before)
  {
    b, ok := UpdateCapacity(a, before).0, UpdateCapacity(a, before).1;
  }
}
