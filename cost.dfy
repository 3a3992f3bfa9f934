/** The planners' cost function C: the distance each vehicle drives along its
    route from its home city, times its cost per kilometre, summed over the
    vehicles. */
module Costs {
  import opened Logistics
  import opened VActions
  import opened Routes
  import opened Plans

  /** One leg of a drive: nothing when the vehicle stays in the same city. */
  function Leg(dist: Distance, from: City, to: City, perKm: nat): (c: real)
    ensures c >= 0.0
    ensures from == to ==> c == 0.0
    ensures from != to ==> c == dist(from, to) * perKm as real
  {
    if from != to then dist(from, to) * perKm as real else 0.0
  }

  /** The cost of driving to every step of r in turn, starting in city `from`. */
  function RouteCost(dist: Distance, from: City, r: Route, perKm: nat): (c: real)
    ensures c >= 0.0
    decreases |r|
  {
    if r == [] then 0.0
    else Leg(dist, from, GetCity(r[0]), perKm) + RouteCost(dist, GetCity(r[0]), r[1..], perKm)
  }

  /** Where a vehicle that set out from `from` is after the steps of r. */
  function End(from: City, r: Route): City
  {
    if r == [] then from else GetCity(r[|r| - 1])
  }

  /** Driving a route in two pieces costs what driving it in one does. */
  lemma {:induction false} RouteCostAppend(dist: Distance, from: City, a: Route, b: Route, perKm: nat)
    ensures RouteCost(dist, from, a + b, perKm)
         == RouteCost(dist, from, a, perKm) + RouteCost(dist, End(from, a), b, perKm)
    decreases |a|
  {
    if a == [] {
      assert a + b == b;
    } else {
      assert (a + b)[0] == a[0] && (a + b)[1..] == a[1..] + b;
      RouteCostAppend(dist, GetCity(a[0]), a[1..], b, perKm);
      if a[1..] == [] {
        assert End(from, a) == GetCity(a[0]);
      } else {
        assert End(GetCity(a[0]), a[1..]) == End(from, a);
      }
    }
  }

  /** The cost depends only on the kinds and tasks of the steps, never on their
      capacity annotations: COD.updateCapacity leaves it alone. */
  lemma {:induction false} RouteCostSameKeys(dist: Distance, from: City, r: Route, s: Route, perKm: nat)
    requires SameKeys(r, s)
    ensures RouteCost(dist, from, r, perKm) == RouteCost(dist, from, s, perKm)
    decreases |r|
  {
    if r != [] {
      assert GetCity(r[0]) == GetCity(s[0]);
      RouteCostSameKeys(dist, GetCity(r[0]), r[1..], s[1..], perKm);
    }
  }

  /** Every vehicle the cost function visits has a route in the plan. */
  predicate Covers(p: Plan, vehicles: seq<Vehicle>)
  {
    forall k :: 0 <= k < |vehicles| ==> vehicles[k] in p.routes
  }

  /** C(cod): the route costs of the listed vehicles, each from its home city at
      its own cost per kilometre. */
  function PlanCost(dist: Distance, p: Plan, vehicles: seq<Vehicle>): (c: real)
    requires Covers(p, vehicles)
    ensures c >= 0.0
    decreases |vehicles|
  {
    if vehicles == [] then 0.0
    else
      RouteCost(dist, vehicles[0].home, p.routes[vehicles[0]], vehicles[0].costPerKm)
      + PlanCost(dist, p, vehicles[1..])
  }

  /** A plan that gives no vehicle anything to do costs nothing. */
  lemma {:induction false} EmptyPlanCost(dist: Distance, vehicles: seq<Vehicle>, all: seq<Vehicle>)
    requires forall k :: 0 <= k < |vehicles| ==> vehicles[k] in all
    ensures Covers(EmptyPlan(all), vehicles)
    ensures PlanCost(dist, EmptyPlan(all), vehicles) == 0.0
    decreases |vehicles|
  {
    if vehicles != [] {
      EmptyPlanCost(dist, vehicles[1..], all);
    }
  }

  /** Plans that agree on the routes of the listed vehicles cost the same, and the
      annotations play no part. */
  lemma {:induction false} PlanCostSameKeys(dist: Distance, p: Plan, q: Plan, vehicles: seq<Vehicle>)
    requires Covers(p, vehicles) && Covers(q, vehicles)
    requires forall k :: 0 <= k < |vehicles| ==> SameKeys(p.routes[vehicles[k]], q.routes[vehicles[k]])
    ensures PlanCost(dist, p, vehicles) == PlanCost(dist, q, vehicles)
    decreases |vehicles|
  {
    if vehicles != [] {
      var v := vehicles[0];
      RouteCostSameKeys(dist, v.home, p.routes[v], q.routes[v], v.costPerKm);
      PlanCostSameKeys(dist, p, q, vehicles[1..]);
    }
  }

  /** The planners' C(cod): a loop over the vehicles and, for each, over the steps
      of its route, following the vehicle from city to city. */
  method C(cod: COD, vehicles: seq<Vehicle>, dist: Distance) returns (sum: real)
    requires Covers(cod.Content(), vehicles)
    ensures sum == PlanCost(dist, cod.Content(), vehicles)
  {
    var p := cod.Content();
    sum := 0.0;
    var i := 0;
    while i < |vehicles|
      invariant 0 <= i <= |vehicles|
      invariant sum + PlanCost(dist, p, vehicles[i..]) == PlanCost(dist, p, vehicles)
    {
      var v := vehicles[i];
      assert vehicles[i..][1..] == vehicles[i + 1..];
      var route := cod.routes[v];
      var current := v.home;
      var k := 0;
      while k < |route|
        invariant 0 <= k <= |route|
        invariant sum + RouteCost(dist, current, route[k..], v.costPerKm) + PlanCost(dist, p, vehicles[i + 1..])
               == PlanCost(dist, p, vehicles)
      {
        assert route[k..][1..] == route[k + 1..];
        var city := GetCity(route[k]);
        if current != city {
          sum := sum + dist(current, city) * v.costPerKm as real;
        }
        current := city;
        k := k + 1;
      }
      i := i + 1;
    }
  }
}
