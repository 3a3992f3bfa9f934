/** The search loop of the current centralized planner: a cold start from a
    shuffled copy of the vehicle and task lists, then rounds of chooseNeighbors
    and localChoice until the time is up; the plan of the last round is the
    answer. */
module CentralizedPlanner {
  import opened Logistics
  import opened VActions
  import opened Routes
  import opened RouteShapes
  import opened Plans
  import opened Costs
  import opened Moves
  import opened Search
  import opened InitialSolution

  /** The random numbers one round of the search draws: the insertion positions of
      every changingVehicle call, the localChoice coin, and the pick among the
      cheapest neighbours. */
  datatype Round = Round(draws: Draws, coin: Fraction, pick: Fraction)

  /** The vehicles of a list, as a set. */
  function Fleet(vehicles: seq<Vehicle>): set<Vehicle>
  {
    set v | v in vehicles
  }

  /** A valid plan over the listed vehicles that carries some task gives one of
      them something to do, so the retry loop of chooseNeighbors ends. */
  lemma SomeoneBusy(p: Plan, vehicles: seq<Vehicle>)
    requires ValidPlan(p) && p.routes.Keys == Fleet(vehicles) && Assigned(p) != {}
    ensures exists k :: 0 <= k < |vehicles| && Busy(p, vehicles[k])
  {
    var t :| t in p.index;
    var v := p.index[t];
    assert t in Tasks(p.routes[v]);
    assert v in Fleet(vehicles);
    var k :| 0 <= k < |vehicles| && vehicles[k] == v;
    assert Busy(p, vehicles[k]);
  }

  /** What the search keeps true of its current plan: valid, over the listed
      vehicles, carrying exactly the listed tasks. */
  predicate Current(p: Plan, vehicles: seq<Vehicle>, tasks: seq<Task>)
  {
    ValidPlan(p) && p.routes.Keys == Fleet(vehicles) && Assigned(p) == Listed(tasks)
  }

  /** As written, SLS runs its rounds even with no task. The cold start then
      succeeds with every route empty, so no vehicle is busy, whatever the draw,
      and the do-while retry loop of chooseNeighbors goes round for ever. */
  lemma NoTaskNoBusy(vehicles: seq<Vehicle>, order: seq<Vehicle>, r: Fraction)
    requires vehicles != [] && forall k :: 0 <= k < |order| ==> order[k] in vehicles
    ensures ColdStart(EmptyPlan(vehicles), order, [], 0) == Some(EmptyPlan(vehicles))
    ensures ValidPlan(EmptyPlan(vehicles))
    ensures !Busy(EmptyPlan(vehicles), vehicles[NextInt(r, |vehicles|)])
  {
    EmptyPlanValid(vehicles);
  }

  /** SLS(): selectInitialSolution, then one round per element of `rounds` (at
      least one: a do-while loop). `order` and `tasks` are the shuffled copies of
      the vehicle and task lists. Where the cold start gives up, ok is false.
      With no task the search returns the empty plan at once, the guard that
      AuctionAgent.plan has and this planner lacks (see NoTaskNoBusy). */
  method SLS(vehicles: seq<Vehicle>, order: seq<Vehicle>, tasks: seq<Task>, rounds: seq<Round>, dist: Distance)
    returns (A: COD, ok: bool)
    requires order != [] && forall k :: 0 <= k < |order| ==> order[k] in vehicles
    requires NoRepeats(tasks)
    requires |rounds| >= 1
    ensures ok <==> !SomeUnplaceable(order, tasks)
    ensures ok ==> Current(A.Content(), vehicles, tasks)
    ensures tasks == [] ==> ok && A.Content() == EmptyPlan(vehicles)
  {
    if tasks == [] {
      A := new COD(vehicles);
      ok := true;
      EmptyPlanValid(vehicles);
      assert !SomeUnplaceable(order, tasks);
      return;
    }
    A, ok := SelectInitialSolution(vehicles, order, tasks);
    ColdStartFails(EmptyPlan(vehicles), order, tasks, 0);
    if !ok {
      return;
    }
    EmptyPlanValid(vehicles);
    ColdStartValid(EmptyPlan(vehicles), order, tasks, 0);
    var i := 0;
    while i < |rounds|
      invariant i <= |rounds|
      invariant Current(A.Content(), vehicles, tasks)
    {
      A := Iterate(A, vehicles, tasks, rounds[i], dist);
      i := i + 1;
    }
  }

  /** One round of the loop: oldA = A; N = chooseNeighbors(oldA); A = localChoice(N, oldA).
      The new plan is the old one or a neighbour of it. */
  method Iterate(oldA: COD, vehicles: seq<Vehicle>, tasks: seq<Task>, round: Round, dist: Distance)
    returns (A: COD)
    requires Current(oldA.Content(), vehicles, tasks) && tasks != []
    ensures A == oldA || Neighbour(oldA.Content(), A.Content())
    ensures Current(A.Content(), vehicles, tasks)
  {
    ghost var P := oldA.Content();
    ValidIsShaped(P);
    assert tasks[0] in Assigned(P);
    SomeoneBusy(P, vehicles);
    forall k | 0 <= k < |tasks| ensures tasks[k] in oldA.index {
      assert tasks[k] in Listed(tasks);
    }
    var vRand, N := ChooseNeighbors(oldA, vehicles, tasks, round.draws);
    NeighboursValid(P, vRand, vehicles, tasks, round.draws);
    forall k | 0 <= k < |N| ensures Neighbour(P, N[k].Content()) {
      ContentsAt(N, k);
      assert Contents(N)[k] in Neighbours(P, vRand, vehicles, tasks, round.draws);
    }
    A := LocalChoice(N, oldA, vehicles, dist, round.coin, round.pick);
  }
}
