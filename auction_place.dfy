/** The bookkeeping of the auction agents on plan values: which vehicle an
    auctioned task is given to and how it is put into that vehicle's route, the
    warm start that rebinds the tasks of the committed plan by id, and the draw
    that starts chooseNeighbors. */
module AuctionPlacement {
  import opened Logistics
  import opened VActions
  import opened Routes
  import opened RouteShapes
  import opened RouteEdits
  import opened Plans
  import opened Moves
  import opened Search
  import opened InitialSolution
  import opened CentralizedPlanner

  // ---------------------------------------------------------------------------
  // Which vehicle takes the auctioned task

  /** The outcome of the vehicle loop of placeTask: the first vehicle that passes
      the test, none, or the NoSuchElementException of getLast() on the empty route
      of a vehicle too small for the task. */
  datatype Probe = Found(vehicle: Vehicle) | NoVehicle | Crash

  /** The test of placeTask over the vehicles in list order: an empty vehicle whose
      capacity is at least the weight, or a vehicle whose last step leaves at least
      the weight free. */
  function FirstTaker(p: Plan, vs: seq<Vehicle>, w: nat): (f: Probe)
    requires forall k :: 0 <= k < |vs| ==> vs[k] in p.routes
    ensures f.Found? ==> f.vehicle in vs && f.vehicle in p.routes
    decreases |vs|
  {
    if vs == [] then NoVehicle
    else
      var r := p.routes[vs[0]];
      if r == [] && w <= vs[0].capacity then Found(vs[0])
      else if r == [] then Crash
      else if r[|r| - 1].remaining >= w then Found(vs[0])
      else FirstTaker(p, vs[1..], w)
  }

  /** Every task a well-formed route picks up it also delivers, so the load at the
      end of the route is zero. */
  lemma {:induction false} WellFormedLoad(r: Route)
    requires WellFormed(r)
    ensures Load(r) == 0
    decreases |r|
  {
    if r != [] {
      FirstIsPickup(r);
      var t := r[0].task;
      assert t in Tasks(r);
      PairPositions(r, t);
      IndexOfAt(r, 0, Pickup, t);
      var d := IndexOf(r, Delivery, t);
      RemovePairShape(r, 0, d);
      WellFormedLoad(RemovePair(r, 0, d));
      assert r == [r[0]] + (r[1..d] + ([r[d]] + r[d + 1..]));
      assert RemovePair(r, 0, d) == r[1..d] + r[d + 1..];
      LoadCons(r[0], r[1..d] + ([r[d]] + r[d + 1..]));
      LoadAppend(r[1..d], [r[d]] + r[d + 1..]);
      LoadCons(r[d], r[d + 1..]);
      LoadAppend(r[1..d], r[d + 1..]);
    }
  }

  /** So on a valid route the last step leaves the whole capacity free. */
  lemma CapacityAtEnd(r: Route, cap: int)
    requires RouteOk(r, cap) && r != []
    ensures r[|r| - 1].remaining == cap
  {
    WellFormedLoad(r);
    assert r[..|r|] == r;
  }

  /** A well-formed route never has exactly one step. */
  lemma NoSingleStep(r: Route)
    requires WellFormed(r)
    ensures |r| != 1
  {
    if r != [] {
      assert r[0].task in Tasks(r);
      PairPositions(r, r[0].task);
    }
  }

  /** On a valid plan the test of placeTask does not look at free room at all: it
      finds the first vehicle strong enough for the task, reports none exactly when
      every vehicle is too weak and busy, and crashes on an empty vehicle that is too
      weak and comes before any strong one. */
  lemma {:induction false} FirstTakerOnValid(p: Plan, vs: seq<Vehicle>, w: nat)
    requires ValidPlan(p) && forall k :: 0 <= k < |vs| ==> vs[k] in p.routes
    ensures var f := FirstTaker(p, vs, w);
      && (f.Found? ==> exists k :: 0 <= k < |vs| && vs[k] == f.vehicle && w <= vs[k].capacity
                                   && forall m :: 0 <= m < k ==> vs[m].capacity < w)
      && (f == NoVehicle <==> forall k :: 0 <= k < |vs| ==> vs[k].capacity < w && p.routes[vs[k]] != [])
    decreases |vs|
  {
    if vs != [] {
      var r := p.routes[vs[0]];
      assert RouteOk(r, vs[0].capacity);
      if r != [] {
        CapacityAtEnd(r, vs[0].capacity);
      }
      FirstTakerOnValid(p, vs[1..], w);
      var f := FirstTaker(p, vs, w);
      var skip := r != [] && r[|r| - 1].remaining < w;
      assert skip ==> f == FirstTaker(p, vs[1..], w) && vs[0].capacity < w;
      if f.Found? && !skip {
        assert vs[0] == f.vehicle && w <= vs[0].capacity;
      } else if f.Found? {
        var k :| 0 <= k < |vs[1..]| && vs[1..][k] == f.vehicle && w <= vs[1..][k].capacity
                 && forall m :: 0 <= m < k ==> vs[1..][m].capacity < w;
        assert vs[k + 1] == f.vehicle;
        forall m | 0 <= m < k + 1 ensures vs[m].capacity < w {
          if m > 0 {
            assert vs[m] == vs[1..][m - 1];
          }
        }
      }
      if f == NoVehicle {
        assert skip;
        forall k | 0 <= k < |vs| ensures vs[k].capacity < w && p.routes[vs[k]] != [] {
          if k > 0 {
            assert vs[k] == vs[1..][k - 1];
          }
        }
      }
    }
  }

  /** A fleet whose first vehicle is empty and too small for the task: the test
      calls getLast() on its empty route and throws, although the second vehicle
      could take the task. */
  lemma EmptyWeakCrashes()
    ensures var small := Vehicle(0, 0, 3, 1);
      var big := Vehicle(1, 0, 10, 1);
      var p := EmptyPlan([small, big]);
      && FirstTaker(p, [small, big], 5) == Crash
      && Taker(p, [small, big], 5) == Some(big)
  {
    var small := Vehicle(0, 0, 3, 1);
    var big := Vehicle(1, 0, 10, 1);
    var p := EmptyPlan([small, big]);
    assert p.routes[small] == [] && p.routes[big] == [];
    assert [small, big][1..] == [big];
  }

  /** The test of placeTask as evidently meant: an empty vehicle too small for the
      task is passed over like a full one. */
  function Taker(p: Plan, vs: seq<Vehicle>, w: nat): (f: Option<Vehicle>)
    requires forall k :: 0 <= k < |vs| ==> vs[k] in p.routes
    ensures f.Some? ==> f.value in vs && f.value in p.routes
    decreases |vs|
  {
    if vs == [] then None
    else
      var r := p.routes[vs[0]];
      if (r == [] && w <= vs[0].capacity) || (r != [] && r[|r| - 1].remaining >= w) then Some(vs[0])
      else Taker(p, vs[1..], w)
  }

  /** On a valid plan the corrected test picks the first vehicle strong enough for
      the task, and finds none exactly when every vehicle is too weak. */
  lemma {:induction false} TakerOnValid(p: Plan, vs: seq<Vehicle>, w: nat)
    requires ValidPlan(p) && forall k :: 0 <= k < |vs| ==> vs[k] in p.routes
    ensures var f := Taker(p, vs, w);
      && (f.Some? ==> exists k :: 0 <= k < |vs| && vs[k] == f.value && w <= vs[k].capacity
                                  && forall m :: 0 <= m < k ==> vs[m].capacity < w)
      && (f.None? <==> forall k :: 0 <= k < |vs| ==> vs[k].capacity < w)
    decreases |vs|
  {
    if vs != [] {
      var r := p.routes[vs[0]];
      assert RouteOk(r, vs[0].capacity);
      if r != [] {
        CapacityAtEnd(r, vs[0].capacity);
      }
      TakerOnValid(p, vs[1..], w);
      var f := Taker(p, vs, w);
      var skip := vs[0].capacity < w;
      assert skip ==> f == Taker(p, vs[1..], w);
      if f.Some? && !skip {
        assert vs[0] == f.value;
      } else if f.Some? {
        var k :| 0 <= k < |vs[1..]| && vs[1..][k] == f.value && w <= vs[1..][k].capacity
                 && forall m :: 0 <= m < k ==> vs[1..][m].capacity < w;
        assert vs[k + 1] == f.value;
        forall m | 0 <= m < k + 1 ensures vs[m].capacity < w {
          if m > 0 {
            assert vs[m] == vs[1..][m - 1];
          }
        }
      }
      if f.None? {
        assert skip;
        forall k | 0 <= k < |vs| ensures vs[k].capacity < w {
          if k > 0 {
            assert vs[k] == vs[1..][k - 1];
          }
        }
      }
    }
  }

  /** Where the test as written does not throw, it agrees with the corrected one. */
  lemma {:induction false} TakerAgrees(p: Plan, vs: seq<Vehicle>, w: nat)
    requires forall k :: 0 <= k < |vs| ==> vs[k] in p.routes
    requires FirstTaker(p, vs, w) != Crash
    ensures FirstTaker(p, vs, w) == NoVehicle <==> Taker(p, vs, w).None?
    ensures FirstTaker(p, vs, w).Found? ==> Taker(p, vs, w) == Some(FirstTaker(p, vs, w).vehicle)
    decreases |vs|
  {
    if vs != [] && FirstTaker(p, vs, w) == FirstTaker(p, vs[1..], w) && Taker(p, vs, w) == Taker(p, vs[1..], w) {
      TakerAgrees(p, vs[1..], w);
    }
  }

  // ---------------------------------------------------------------------------
  // Putting the task into the route

  /** The two list insertions of placeTask: the delivery at indexD, then the pickup
      at indexP, both annotated 0. */
  function Slotted(r: Route, t: Task, rp: Fraction, rd: Fraction): Route
    requires |r| > 1
  {
    var (ip, id) := InsertPositions(|r|, rp, rd);
    InsertAt(InsertAt(r, id, NewDelivery(t, 0)), ip, NewPickup(t, 0))
  }

  /** placeTask on the chosen vehicle, as written: on a non-empty route the
      delivery goes in at indexD and the pickup at indexP, both annotated 0, and
      nothing is recomputed; on an empty route COD.addTask. The route must not have
      exactly one step: Random.nextInt(0) throws. */
  function PlaceAsWritten(p: Plan, v: Vehicle, t: Task, rp: Fraction, rd: Fraction): Plan
    requires v in p.routes && |p.routes[v]| != 1
  {
    var r := p.routes[v];
    if |r| > 0 then Plan(p.routes[v := Slotted(r, t, rp, rd)], p.index[t := v])
    else if t.weight <= v.capacity then AddTaskPlan(p, v, t)
    else p
  }

  /** A vehicle of capacity 10 carrying a task of weight 8 has 10 free after its
      last step, so it passes the test for a task of weight 5; with the draws
      indexP = 0 and indexD = 1 the new pickup goes in front of the old one and the
      vehicle carries 13. */
  lemma PlaceAsWrittenOverloads()
    ensures var v := Vehicle(0, 0, 10, 1);
      var a := Task(0, 0, 1, 8, 0);
      var b := Task(1, 0, 1, 5, 0);
      var p := AddTaskPlan(EmptyPlan([v]), v, a);
      && ValidPlan(p) && b !in p.index
      && FirstTaker(p, [v], b.weight) == Found(v)
      && PlaceAsWritten(p, v, b, 0.0, 0.5).routes[v]
         == [NewPickup(b, 0), NewPickup(a, 2), NewDelivery(b, 0), NewDelivery(a, 10)]
      && Carried(PlaceAsWritten(p, v, b, 0.0, 0.5).routes[v], 1) == 13
      && !ValidPlan(PlaceAsWritten(p, v, b, 0.0, 0.5))
  {
    var v := Vehicle(0, 0, 10, 1);
    var a := Task(0, 0, 1, 8, 0);
    var b := Task(1, 0, 1, 5, 0);
    EmptyPlanValid([v]);
    AddTaskKeepsValid(EmptyPlan([v]), v, a);
    var p := AddTaskPlan(EmptyPlan([v]), v, a);
    assert p.routes[v] == [NewPickup(a, 2), NewDelivery(a, 10)];
    assert NextInt(0.0, 1) == 0;
    assert NextInt(0.5, 2) == 1;
    var s := [NewPickup(b, 0), NewPickup(a, 2), NewDelivery(b, 0), NewDelivery(a, 10)];
    assert PlaceAsWritten(p, v, b, 0.0, 0.5).routes[v] == s;
    assert s[..2] == [s[0], s[1]];
    assert Load(s[..2]) == 13 by {
      assert s[..2][1..] == [s[1]];
      LoadSingle(s[1]);
    }
    assert Carried(s, 1) == 13;
    assert s[1].remaining != 10 - Carried(s, 1);
    assert !RouteOk(s, v.capacity);
  }

  /** placeTask with the recomputation the other planners make after an insertion:
      the new steps are annotated by COD.updateCapacity(v, 0), and when that reports
      an overload the task goes in front of the route instead (COD.addTask), where it
      always fits. */
  function PlaceOnVehicle(p: Plan, v: Vehicle, t: Task, rp: Fraction, rd: Fraction): Plan
    requires v in p.routes
  {
    var r := p.routes[v];
    if |r| > 1 && Propagate(Slotted(r, t, rp, rd), 0, v.capacity).1 then
      Plan(p.routes[v := Propagate(Slotted(r, t, rp, rd), 0, v.capacity).0], p.index[t := v])
    else AddTaskPlan(p, v, t)
  }

  /** Handing a new task to one vehicle together with a valid route that serves it
      keeps the plan valid. */
  lemma GiveRoute(p: Plan, v: Vehicle, t: Task, s: Route)
    requires ValidPlan(p) && v in p.routes && t !in p.index
    requires RouteOk(s, v.capacity) && Tasks(s) == Tasks(p.routes[v]) + {t}
    ensures ValidPlan(Plan(p.routes[v := s], p.index[t := v]))
    ensures Assigned(Plan(p.routes[v := s], p.index[t := v])) == Assigned(p) + {t}
  {
    var q := Plan(p.routes[v := s], p.index[t := v]);
    assert forall w :: w in q.routes ==> RouteOk(q.routes[w], w.capacity);
    forall w, u | w in q.routes && u in Tasks(q.routes[w]) ensures u in q.index && q.index[u] == w {
      if w != v {
        assert q.routes[w] == p.routes[w];
      }
    }
    forall u | u in q.index ensures q.index[u] in q.routes && u in Tasks(q.routes[q.index[u]]) {
      if u != t {
        assert u in Tasks(p.routes[p.index[u]]);
      }
    }
  }

  /** The corrected placement on a valid plan gives a valid plan with the same
      vehicles that carries the new task on v, leaving every other route alone. */
  lemma PlaceValid(p: Plan, v: Vehicle, t: Task, rp: Fraction, rd: Fraction)
    requires ValidPlan(p) && v in p.routes && t !in p.index && t.weight <= v.capacity
    ensures var q := PlaceOnVehicle(p, v, t, rp, rd);
      && ValidPlan(q)
      && Assigned(q) == Assigned(p) + {t}
      && q.routes.Keys == p.routes.Keys
      && q.index[t] == v
      && forall u :: u in p.routes && u != v ==> q.routes[u] == p.routes[u]
  {
    var r := p.routes[v];
    assert RouteOk(r, v.capacity);
    assert t !in Tasks(r);
    if |r| > 1 {
      var (ip, id) := InsertPositions(|r|, rp, rd);
      var s1 := InsertAt(InsertAt(r, id, NewDelivery(t, 0)), ip, NewPickup(t, 0));
      InsertAtTwice(r, ip, id, NewPickup(t, 0), NewDelivery(t, 0));
      InsertTaskOk(r, ip, id, t, v.capacity);
      var (s, ok) := Propagate(s1, 0, v.capacity);
      if ok {
        PropagateSpec(s1, 0, v.capacity);
        SameKeysShape(s1, s);
        GiveRoute(p, v, t, s);
        return;
      }
    }
    AddTaskKeepsValid(p, v, t);
  }

  /** On the plan of PlaceAsWrittenOverloads, the corrected placement with the
      same draws puts the task in front of the route instead. */
  lemma PlaceFallsBack()
    ensures var v := Vehicle(0, 0, 10, 1);
      var a := Task(0, 0, 1, 8, 0);
      var b := Task(1, 0, 1, 5, 0);
      var p := AddTaskPlan(EmptyPlan([v]), v, a);
      PlaceOnVehicle(p, v, b, 0.0, 0.5) == AddTaskPlan(p, v, b)
  {
    var v := Vehicle(0, 0, 10, 1);
    var a := Task(0, 0, 1, 8, 0);
    var b := Task(1, 0, 1, 5, 0);
    var p := AddTaskPlan(EmptyPlan([v]), v, a);
    assert p.routes[v] == [NewPickup(a, 2), NewDelivery(a, 10)];
    assert NextInt(0.0, 1) == 0;
    assert NextInt(0.5, 2) == 1;
    var s1 := [NewPickup(b, 0), NewPickup(a, 2), NewDelivery(b, 0), NewDelivery(a, 10)];
    assert InsertAt(InsertAt(p.routes[v], 1, NewDelivery(b, 0)), 0, NewPickup(b, 0)) == s1;
    assert !Propagate(s1, 0, 10).1 by {
      PropagateSpec(s1, 0, 10);
      assert s1[..2] == [s1[0], s1[1]];
      assert s1[..2][1..] == [s1[1]];
      LoadSingle(s1[1]);
      assert Carried(s1, 1) == 13;
    }
  }

  // ---------------------------------------------------------------------------
  // The draw that starts chooseNeighbors

  /** One turn of the do-while loop that draws vRand with Random.nextInt(size): the
      vehicle drawn when it has something to do, None when the loop goes round
      again. */
  function RetryDraw(p: Plan, vehicles: seq<Vehicle>, r: Fraction): (d: Option<Vehicle>)
    requires vehicles != [] && forall k :: 0 <= k < |vehicles| ==> vehicles[k] in p.routes
  {
    var v := vehicles[NextInt(r, |vehicles|)];
    if p.routes[v] != [] then Some(v) else None
  }

  /** On a valid plan carrying no task every draw goes round again: the loop never
      ends. */
  lemma NoTaskNoDraw(p: Plan, vehicles: seq<Vehicle>, r: Fraction)
    requires ValidPlan(p) && Assigned(p) == {}
    requires vehicles != [] && forall k :: 0 <= k < |vehicles| ==> vehicles[k] in p.routes
    ensures RetryDraw(p, vehicles, r) == None
  {
    var v := vehicles[NextInt(r, |vehicles|)];
    assert Tasks(p.routes[v]) == {};
    NoTasksNoSteps(p.routes[v]);
  }

  /** A route without tasks has no steps. */
  lemma NoTasksNoSteps(r: Route)
    ensures Tasks(r) == {} <==> r == []
  {
    if r != [] {
      assert r[0].task in Tasks(r);
    }
  }

  /** With a task on the plan some draw ends the loop. */
  lemma SomeDrawEnds(p: Plan, vehicles: seq<Vehicle>, tasks: seq<Task>)
    requires Current(p, vehicles, tasks) && tasks != [] && vehicles != []
    ensures exists r: Fraction :: RetryDraw(p, vehicles, r).Some?
  {
    assert tasks[0] in Assigned(p);
    SomeoneBusy(p, vehicles);
    var k :| 0 <= k < |vehicles| && Busy(p, vehicles[k]);
    NextIntReaches(k, |vehicles|);
    var r: Fraction := k as real / |vehicles| as real;
    assert RetryDraw(p, vehicles, r).Some?;
  }

  /** Placing the task keeps what the agent knows of its tasks: the plan carries
      exactly the listed tasks, now with the new one at the end. */
  lemma PlaceCurrent(p: Plan, vs: seq<Vehicle>, ts: seq<Task>, t: Task, rp: Fraction, rd: Fraction)
    requires Current(p, vs, ts) && NoRepeats(ts) && t !in p.index
    requires Taker(p, vs, t.weight).Some?
    ensures var q := PlaceOnVehicle(p, Taker(p, vs, t.weight).value, t, rp, rd);
      Current(q, vs, ts + [t]) && NoRepeats(ts + [t]) && q.index[t] == Taker(p, vs, t.weight).value
  {
    TakerOnValid(p, vs, t.weight);
    var v := Taker(p, vs, t.weight).value;
    PlaceValid(p, v, t, rp, rd);
    assert Listed(ts + [t]) == Listed(ts) + {t};
    forall a, b | 0 <= a < b < |ts + [t]| ensures (ts + [t])[a] != (ts + [t])[b] {
      if b == |ts| {
        assert ts[a] in Listed(ts);
      }
    }
  }

  // ---------------------------------------------------------------------------
  // The warm start

  /** No two different tasks of the list share an id. */
  predicate IdsUnique(ts: seq<Task>)
  {
    forall a, b :: 0 <= a < |ts| && 0 <= b < |ts| && ts[a].id == ts[b].id ==> ts[a] == ts[b]
  }

  /** taskMap after the loop of selectInitialSolution: id to task, a later task
      replacing an earlier one with the same id. */
  function ById(ts: seq<Task>): map<int, Task>
    decreases |ts|
  {
    if ts == [] then map[] else ById(ts[..|ts| - 1])[ts[|ts| - 1].id := ts[|ts| - 1]]
  }

  /** taskMap maps each id to a task of the list with that id, and knows the id of
      every listed task. */
  lemma {:induction false} ByIdSpec(ts: seq<Task>)
    ensures forall i :: i in ById(ts) ==> ById(ts)[i].id == i && ById(ts)[i] in ts
    ensures forall t :: t in ts ==> t.id in ById(ts)
    decreases |ts|
  {
    if ts != [] {
      var ts' := ts[..|ts| - 1];
      ByIdSpec(ts');
      forall t | t in ts ensures t.id in ById(ts) {
        if t != ts[|ts| - 1] {
          var k :| 0 <= k < |ts| && ts[k] == t;
          assert ts'[k] == t;
        }
      }
    }
  }

  /** With unique ids every listed task is found again under its own id. */
  lemma ByIdFinds(ts: seq<Task>, t: Task)
    requires IdsUnique(ts) && t in ts
    ensures t.id in ById(ts) && ById(ts)[t.id] == t
  {
    ByIdSpec(ts);
    var u := ById(ts)[t.id];
    var a :| 0 <= a < |ts| && ts[a] == t;
    var b :| 0 <= b < |ts| && ts[b] == u;
  }

  /** The steps of a route, in order, each with its task replaced by the task
      of m under the same id. */
  function RebindRoute(r: Route, m: map<int, Task>): Route
    requires forall k :: 0 <= k < |r| ==> r[k].task.id in m
  {
    seq(|r|, k requires 0 <= k < |r| => r[k].(task := m[r[k].task.id]))
  }


  /** m files each task under its own id, knows the id of every task of the index,
      and two entries of the index under one id name the same vehicle. */
  predicate IdConsistent(I: map<Task, Vehicle>, m: map<int, Task>)
  {
    && (forall i :: i in m ==> m[i].id == i)
    && (forall t :: t in I ==> t.id in m)
    && (forall t, u :: t in I && u in I && t.id == u.id ==> I[t] == I[u])
  }

  /** The index entries of the tasks of D, each task replaced by the task of m
      under the same id. */
  function RebindIndex(I: map<Task, Vehicle>, D: set<Task>, m: map<int, Task>): map<Task, Vehicle>
    requires D <= I.Keys && IdConsistent(I, m)
  {
    map t | t in D :: m[t.id] := I[t]
  }

  /** What the warm start needs of the committed plan: every listed vehicle has a
      route, and every task of it has its id in m, the same task under one id never
      standing for two vehicles. */
  predicate Rebindable(p: Plan, vehicles: seq<Vehicle>, m: map<int, Task>)
  {
    && (forall v :: v in vehicles ==> v in p.routes && forall k :: 0 <= k < |p.routes[v]| ==> p.routes[v][k].task.id in m)
    && IdConsistent(p.index, m)
  }

  /** newPlan after selectInitialSolution: the routes of the listed vehicles and the
      whole index, rebound by id. */
  function Rebind(p: Plan, vehicles: seq<Vehicle>, m: map<int, Task>): Plan
    requires Rebindable(p, vehicles, m)
  {
    Plan(map v | v in vehicles :: RebindRoute(p.routes[v], m), RebindIndex(p.index, p.index.Keys, m))
  }

  /** When m gives back every task of the route under its own id, rebinding
      changes nothing. */
  lemma RebindRouteIdentity(r: Route, m: map<int, Task>)
    requires forall k :: 0 <= k < |r| ==> r[k].task.id in m && m[r[k].task.id] == r[k].task
    ensures RebindRoute(r, m) == r
  {
  }

  /** Once the list of tasks is the list of the tasks the committed plan carries,
      with unique ids, the warm start gives back the committed plan. */
  lemma RebindIdentity(p: Plan, vehicles: seq<Vehicle>, ts: seq<Task>)
    requires Current(p, vehicles, ts) && IdsUnique(ts)
    ensures Rebindable(p, vehicles, ById(ts))
    ensures Rebind(p, vehicles, ById(ts)) == p
  {
    var m := ById(ts);
    CurrentRebindable(p, vehicles, ts);
    var q := Rebind(p, vehicles, m);
    forall v | v in vehicles ensures q.routes[v] == p.routes[v] {
      RebindRouteIdentity(p.routes[v], m);
    }
    assert q.routes == p.routes;
    RebindIndexIdentity(p.index, m);
  }

  /** What the warm start finds in taskMap for a plan carrying exactly the listed
      tasks, with unique ids: each task under its own id. */
  lemma CurrentRebindable(p: Plan, vehicles: seq<Vehicle>, ts: seq<Task>)
    requires Current(p, vehicles, ts) && IdsUnique(ts)
    ensures Rebindable(p, vehicles, ById(ts))
    ensures forall t :: t in p.index ==> ById(ts)[t.id] == t
    ensures forall v, k :: v in p.routes && 0 <= k < |p.routes[v]| ==>
      p.routes[v][k].task.id in ById(ts) && ById(ts)[p.routes[v][k].task.id] == p.routes[v][k].task
  {
    var m := ById(ts);
    ByIdSpec(ts);
    forall t | t in p.index ensures t.id in m && m[t.id] == t {
      assert t in Listed(ts);
      ByIdFinds(ts, t);
    }
    forall v, k | v in p.routes && 0 <= k < |p.routes[v]|
      ensures p.routes[v][k].task.id in m && m[p.routes[v][k].task.id] == p.routes[v][k].task
    {
      assert p.routes[v][k].task in Tasks(p.routes[v]);
    }
    forall t, u | t in p.index && u in p.index && t.id == u.id ensures p.index[t] == p.index[u] {
      assert t == m[t.id] == u;
    }
    forall v | v in vehicles ensures v in p.routes {
      assert v in Fleet(vehicles);
    }
  }

  /** An index whose tasks m files under their own ids is rebound to itself. */
  lemma RebindIndexIdentity(I: map<Task, Vehicle>, m: map<int, Task>)
    requires IdConsistent(I, m) && forall t :: t in I ==> m[t.id] == t
    ensures RebindIndex(I, I.Keys, m) == I
  {
    var J := RebindIndex(I, I.Keys, m);
    forall x | x in J ensures x in I && J[x] == I[x] {
      var t :| t in I && m[t.id] == x;
    }
    forall x | x in I ensures x in J {
      assert m[x.id] == x;
    }
  }

  /** One more entry of the index rebound. */
  lemma RebindIndexStep(I: map<Task, Vehicle>, D: set<Task>, t: Task, m: map<int, Task>)
    requires D <= I.Keys && t in I && IdConsistent(I, m)
    ensures RebindIndex(I, D + {t}, m) == RebindIndex(I, D, m)[m[t.id] := I[t]]
  {
    var A := RebindIndex(I, D + {t}, m);
    var B := RebindIndex(I, D, m)[m[t.id] := I[t]];
    forall x | x in A ensures x in B && A[x] == B[x] {
      var u :| u in D + {t} && m[u.id] == x;
    }
    forall x | x in B ensures x in A {
      if x != m[t.id] {
        var u :| u in D && m[u.id] == x;
      }
    }
    assert A.Keys == B.Keys;
  }
}
