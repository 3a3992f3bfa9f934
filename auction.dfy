/** The auction agents (AuctionAgent and AuctionAgentOpt): for every auctioned
    task a new plan is searched from the committed one with the task placed into
    it; the plan is committed when the auction is won and dropped when it is
    lost; at the end the committed plan is searched once more. The two agents do
    the same on everything modelled here, except that only AuctionAgent guards
    plan() against an empty task set. */
module Auction {
  import opened Logistics
  import opened VActions
  import opened Routes
  import opened RouteShapes
  import opened Plans
  import opened Costs
  import opened Moves
  import opened Search
  import opened InitialSolution
  import opened CentralizedPlanner
  import opened AuctionPlacement

  /** A plan over the listed vehicles has a route for each of them. */
  lemma CurrentCovers(p: Plan, vehicles: seq<Vehicle>, tasks: seq<Task>)
    requires Current(p, vehicles, tasks)
    ensures Covers(p, vehicles)
  {
    forall k | 0 <= k < |vehicles| ensures vehicles[k] in p.routes {
      assert vehicles[k] in Fleet(vehicles);
    }
  }

  /** Every plan of met has a route for each listed vehicle. */
  predicate AllCovered(met: seq<Plan>, vehicles: seq<Vehicle>)
  {
    forall k :: 0 <= k < |met| ==> Covers(met[k], vehicles)
  }

  /** The best-so-far of SLS: met[best] is the first plan of met with the least
      cost, and cost is that cost. */
  ghost predicate FirstCheapest(dist: Distance, met: seq<Plan>, vehicles: seq<Vehicle>, best: nat, cost: real)
    requires AllCovered(met, vehicles)
  {
    && best < |met| && cost == PlanCost(dist, met[best], vehicles)
    && (forall k :: 0 <= k < |met| ==> cost <= PlanCost(dist, met[k], vehicles))
    && (forall k :: 0 <= k < best ==> cost < PlanCost(dist, met[k], vehicles))
  }

  /** One more plan met: only a strictly cheaper plan becomes the best. */
  lemma FirstCheapestStep(dist: Distance, met: seq<Plan>, vehicles: seq<Vehicle>, best: nat, cost: real, p: Plan)
    requires AllCovered(met, vehicles) && FirstCheapest(dist, met, vehicles, best, cost) && Covers(p, vehicles)
    ensures AllCovered(met + [p], vehicles)
    ensures PlanCost(dist, p, vehicles) < cost ==> FirstCheapest(dist, met + [p], vehicles, |met|, PlanCost(dist, p, vehicles))
    ensures PlanCost(dist, p, vehicles) >= cost ==> FirstCheapest(dist, met + [p], vehicles, best, cost)
  {
    assert forall k :: 0 <= k < |met| ==> (met + [p])[k] == met[k];
  }

  /** Every plan of a list of COD objects carries the listed tasks. */
  predicate AllCurrent(N: seq<COD>, vehicles: seq<Vehicle>, tasks: seq<Task>)
    reads N
  {
    forall k :: 0 <= k < |N| ==> Current(N[k].Content(), vehicles, tasks)
  }

  lemma AllCurrentConcat(A: seq<COD>, B: seq<COD>, vehicles: seq<Vehicle>, tasks: seq<Task>)
    requires AllCurrent(A, vehicles, tasks) && AllCurrent(B, vehicles, tasks)
    ensures AllCurrent(A + B, vehicles, tasks)
  {
    forall k | 0 <= k < |A + B| ensures Current((A + B)[k].Content(), vehicles, tasks) {
      if k >= |A| {
        assert (A + B)[k] == B[k - |A|];
      }
    }
  }

  lemma AllCurrentCovers(N: seq<COD>, vehicles: seq<Vehicle>, tasks: seq<Task>)
    requires AllCurrent(N, vehicles, tasks)
    ensures forall k :: 0 <= k < |N| ==> Covers(N[k].Content(), vehicles)
  {
    forall k | 0 <= k < |N| ensures Covers(N[k].Content(), vehicles) {
      CurrentCovers(N[k].Content(), vehicles, tasks);
    }
  }

  /** A neighbour of a plan carrying the listed tasks carries them too. */
  lemma NeighbourCurrent(p: Plan, q: Plan, vehicles: seq<Vehicle>, tasks: seq<Task>)
    requires Current(p, vehicles, tasks) && Neighbour(p, q)
    ensures Current(q, vehicles, tasks)
  {
  }

  /** When the plan carries every listed task and the list has no repeats, dropping
      the last task from the list leaves the plan carrying one task too many: what
      auctionResult does to the committed plan after a lost auction in which the
      agent made no bid. */
  lemma LossAfterNullBid(p: Plan, vehicles: seq<Vehicle>, ts: seq<Task>)
    requires Current(p, vehicles, ts) && NoRepeats(ts) && ts != []
    ensures !Current(p, vehicles, ts[..|ts| - 1])
  {
    var t := ts[|ts| - 1];
    assert t in Listed(ts);
    var front := ts[..|ts| - 1];
    forall k | 0 <= k < |front| ensures front[k] != t {
      assert front[k] == ts[k];
    }
    assert t !in Listed(front);
  }

  class AuctionAgent {
    /** listOfVehicles */
    var vehicles: seq<Vehicle>
    /** listOfTasks: the tasks won so far, and the one being bid on */
    var tasks: seq<Task>
    var currentPlan: COD
    var currentCost: real
    var newPlan: COD?
    var newCost: real
    /** the neighbour set of SLS */
    var neighbors: NeighbourSet
    /** the distances of the topology */
    const dist: Distance

    /** Between auctions: the committed plan carries exactly the tasks won. */
    predicate Settled()
      reads this, currentPlan
    {
      NoRepeats(tasks) && Current(currentPlan.Content(), vehicles, tasks)
    }

    /** After askPrice: either no vehicle could take the task and nothing changed,
        or the task was appended to the list and newPlan carries the whole list
        while the committed plan carries all of it but the last. */
    predicate Bidding()
      reads this, currentPlan, newPlan
    {
      && NoRepeats(tasks)
      && if newPlan == null then Current(currentPlan.Content(), vehicles, tasks)
         else tasks != [] && Current(newPlan.Content(), vehicles, tasks)
              && Current(currentPlan.Content(), vehicles, tasks[..|tasks| - 1])
    }

    /** setup(): no task yet, and an empty route for every vehicle. */
    constructor(vehicles: seq<Vehicle>, dist: Distance)
      ensures this.vehicles == vehicles && this.dist == dist && tasks == [] && neighbors.elems == []
      ensures currentPlan.Content() == EmptyPlan(vehicles) && newPlan == null
      ensures Settled()
    {
      this.vehicles := vehicles;
      this.dist := dist;
      tasks := [];
      currentPlan := new COD(vehicles);
      currentCost := 0.0;
      newPlan := null;
      newCost := 0.0;
      neighbors := new NeighbourSet();
      new;
      EmptyPlanValid(vehicles);
    }

    /** placeTask(task): the first vehicle that passes the test gets the task in a
        clone of the committed plan, and the task is appended to the list. */
    method PlaceTask(task: Task, rp: Fraction, rd: Fraction)
      requires newPlan == null && Settled() && task !in currentPlan.index
      modifies this
      ensures vehicles == old(vehicles) && currentPlan == old(currentPlan)
      ensures currentCost == old(currentCost) && newCost == old(newCost) && neighbors == old(neighbors)
      ensures var pick := Taker(currentPlan.Content(), vehicles, task.weight);
        && (newPlan == null <==> pick.None?)
        && (newPlan == null ==> tasks == old(tasks))
        && (newPlan != null ==>
              fresh(newPlan) && tasks == old(tasks) + [task]
              && newPlan.Content() == PlaceOnVehicle(currentPlan.Content(), pick.value, task, rp, rd))
      ensures Bidding()
    {
      newPlan := FirstPlacement(currentPlan, vehicles, tasks, task, rp, rd);
      if newPlan != null {
        tasks := tasks + [task];
        assert tasks[..|tasks| - 1] == old(tasks);
      }
    }

    /** askPrice(task): newPlan is reset, the task placed, and where a vehicle took
        it the search improves the new plan. The price computed from the costs is
        not modelled; placed is false where the source bids null. */
    method AskPrice(task: Task, rp: Fraction, rd: Fraction, rounds: seq<Round>) returns (placed: bool)
      requires Settled() && task !in currentPlan.index && |rounds| >= 1
      modifies this
      ensures vehicles == old(vehicles) && currentPlan == old(currentPlan) && currentCost == old(currentCost)
      ensures var pick := Taker(currentPlan.Content(), vehicles, task.weight);
        && (placed <==> pick.Some?)
        && (!placed ==> newPlan == null && newCost == -1.0 && tasks == old(tasks))
        && (placed ==>
              newPlan != null && tasks == old(tasks) + [task]
              && var q := PlaceOnVehicle(currentPlan.Content(), pick.value, task, rp, rd);
                 Covers(q, vehicles) && Covers(newPlan.Content(), vehicles)
                 && newCost == PlanCost(dist, newPlan.Content(), vehicles)
                 && newCost <= PlanCost(dist, q, vehicles))
      ensures Bidding()
    {
      newPlan := null;
      newCost := -1.0;
      PlaceTask(task, rp, rd);
      if newPlan == null {
        return false;
      }
      ghost var met: seq<Plan>, best: nat;
      met, best := SLS(rounds);
      placed := true;
    }

    /** auctionResult(previous, winner, bids) as written: a won auction commits
        newPlan; a lost one drops the last task of the list, whether or not the
        agent made a bid. After a lost auction without a bid the committed plan
        then carries a task the list no longer holds. */
    method AuctionResultAsWritten(won: bool)
      requires Bidding() && (won ==> newPlan != null) && (!won ==> tasks != [])
      modifies this
      ensures vehicles == old(vehicles) && newPlan == old(newPlan)
      ensures won ==> currentPlan == old(newPlan) && currentCost == old(newCost) && tasks == old(tasks)
      ensures !won ==> currentPlan == old(currentPlan) && tasks == old(tasks)[..|old(tasks)| - 1]
      ensures !won && old(newPlan) == null ==> !Settled()
      ensures !won && old(newPlan) != null ==> Settled()
    {
      if won {
        currentPlan := newPlan;
        currentCost := newCost;
      } else {
        if newPlan == null {
          LossAfterNullBid(currentPlan.Content(), vehicles, tasks);
        }
        tasks := tasks[..|tasks| - 1];
        NoRepeatsPrefix(old(tasks), |tasks|);
      }
    }

    /** auctionResult with the last task dropped only when askPrice appended it. */
    method AuctionResult(won: bool)
      requires Bidding() && (won ==> newPlan != null)
      modifies this
      ensures vehicles == old(vehicles) && newPlan == old(newPlan)
      ensures won ==> currentPlan == old(newPlan) && currentCost == old(newCost) && tasks == old(tasks)
      ensures !won ==> currentPlan == old(currentPlan)
      ensures !won && old(newPlan) == null ==> tasks == old(tasks)
      ensures !won && old(newPlan) != null ==> tasks == old(tasks)[..|old(tasks)| - 1]
      ensures Settled()
    {
      if won {
        currentPlan := newPlan;
        currentCost := newCost;
      } else if newPlan != null {
        tasks := tasks[..|tasks| - 1];
        NoRepeatsPrefix(old(tasks), |tasks|);
      }
    }

    /** plan(vehicles, tasks) with the guard of AuctionAgent: with no task every
        vehicle gets an empty plan; otherwise the lists are replaced, the committed
        plan rebuilt over the new task objects and searched once more. The result
        is the route of each vehicle, in list order. */
    method FinalPlan(vs: seq<Vehicle>, ts: seq<Task>, rounds: seq<Round>) returns (plans: seq<Route>)
      requires ts != [] ==> Current(currentPlan.Content(), vs, ts) && IdsUnique(ts) && |rounds| >= 1
      modifies this
      ensures currentPlan == old(currentPlan)
      ensures ts == [] ==> vehicles == old(vehicles) && |plans| == |vehicles| && forall k :: 0 <= k < |plans| ==> plans[k] == []
      ensures ts != [] ==> (
        && vehicles == vs && tasks == ts && newPlan != null
        && Current(newPlan.Content(), vs, ts)
        && |plans| == |vs| && (forall k :: 0 <= k < |vs| ==> vs[k] in newPlan.routes && plans[k] == newPlan.routes[vs[k]])
        && Covers(currentPlan.Content(), vs)
        && newCost <= PlanCost(dist, currentPlan.Content(), vs))
    {
      if ts == [] {
        plans := seq(|vehicles|, _ => []);
        return;
      }
      Replan(vs, ts, rounds);
      plans := RoutesOf(newPlan, vs);
    }

    /** The search of plan(): the lists replaced, newPlan rebuilt from the committed
        plan, then SLS. */
    method Replan(vs: seq<Vehicle>, ts: seq<Task>, rounds: seq<Round>)
      requires Current(currentPlan.Content(), vs, ts) && IdsUnique(ts) && ts != [] && |rounds| >= 1
      modifies this
      ensures currentPlan == old(currentPlan) && vehicles == vs && tasks == ts && newPlan != null
      ensures Current(newPlan.Content(), vs, ts)
      ensures Covers(currentPlan.Content(), vs) && newCost <= PlanCost(dist, currentPlan.Content(), vs)
    {
      vehicles := vs;
      tasks := ts;
      newPlan := WarmStartCurrent(currentPlan.Content(), vs, ts);
      ghost var met: seq<Plan>, best: nat;
      met, best := SLS(rounds);
    }

    /** The loop of plan() over the vehicles: each vehicle's route, in list order. */
    static method RoutesOf(c: COD, vs: seq<Vehicle>) returns (plans: seq<Route>)
      requires forall k :: 0 <= k < |vs| ==> vs[k] in c.routes
      ensures |plans| == |vs| && forall k :: 0 <= k < |vs| ==> plans[k] == c.routes[vs[k]]
    {
      plans := [];
      var i := 0;
      while i < |vs|
        invariant i <= |vs| && |plans| == i
        invariant forall k :: 0 <= k < i ==> plans[k] == c.routes[vs[k]]
      {
        plans := plans + [c.routes[vs[i]]];
        i := i + 1;
      }
    }

    /** selectInitialSolution(): the new plan is built afresh from the committed
        plan p, every step and index entry with its task replaced by the listed task
        of the same id; the caller stores it in newPlan. */
    static method WarmStart(p: Plan, vs: seq<Vehicle>, ts: seq<Task>) returns (c: COD)
      requires Rebindable(p, vs, ById(ts))
      ensures fresh(c) && c.Content() == Rebind(p, vs, ById(ts))
    {
      var m := TaskMap(ts);
      c := RebuildPlan(p, vs, m);
    }

    /** On a committed plan carrying exactly the listed tasks, with unique ids,
        the warm start rebuilds the same plan. */
    static method WarmStartCurrent(p: Plan, vs: seq<Vehicle>, ts: seq<Task>) returns (c: COD)
      requires Current(p, vs, ts) && IdsUnique(ts)
      ensures fresh(c) && c.Content() == p
    {
      RebindIdentity(p, vs, ts);
      c := WarmStart(p, vs, ts);
    }

    /** The two loops of selectInitialSolution over the committed plan p. */
    static method RebuildPlan(p: Plan, vs: seq<Vehicle>, m: map<int, Task>) returns (c: COD)
      requires Rebindable(p, vs, m)
      ensures fresh(c) && c.Content() == Rebind(p, vs, m)
    {
      c := new COD(vs);
      var routes := RebuildRoutes(c.routes, p, vs, m);
      c.routes := routes;
      var index := RebuildIndex(p.index, m);
      c.index := index;
    }

    /** The loop over the vehicles: each one's list of rebound steps put into the
        routes of the new plan. */
    static method RebuildRoutes(routes0: map<Vehicle, Route>, p: Plan, vs: seq<Vehicle>, m: map<int, Task>)
      returns (routes: map<Vehicle, Route>)
      requires Rebindable(p, vs, m) && routes0.Keys == Fleet(vs)
      ensures routes == Rebind(p, vs, m).routes
    {
      routes := routes0;
      var i := 0;
      while i < |vs|
        invariant i <= |vs| && routes.Keys == Fleet(vs)
        invariant forall k :: 0 <= k < i ==> routes[vs[k]] == RebindRoute(p.routes[vs[k]], m)
      {
        var v := vs[i];
        assert v in vs;
        var list := RebuildRoute(p.routes[v], m);
        routes := routes[v := list];
        i := i + 1;
      }
      forall v | v in vs ensures routes[v] == RebindRoute(p.routes[v], m) {
        var k :| 0 <= k < |vs| && vs[k] == v;
      }
    }

    /** The loop over the entries of the committed index. */
    static method RebuildIndex(I: map<Task, Vehicle>, m: map<int, Task>) returns (J: map<Task, Vehicle>)
      requires IdConsistent(I, m)
      ensures J == RebindIndex(I, I.Keys, m)
    {
      J := map[];
      var D: set<Task> := {};
      while D != I.Keys
        invariant D <= I.Keys && J == RebindIndex(I, D, m)
        decreases |I.Keys - D|
      {
        var t :| t in I.Keys - D;
        RebindIndexStep(I, D, t, m);
        J := J[m[t.id] := I[t]];
        assert I.Keys - (D + {t}) < I.Keys - D;
        D := D + {t};
      }
    }

    /** The loop that fills taskMap. */
    static method TaskMap(ts: seq<Task>) returns (m: map<int, Task>)
      ensures m == ById(ts)
    {
      m := map[];
      var i := 0;
      while i < |ts|
        invariant i <= |ts| && m == ById(ts[..i])
      {
        assert ts[..i + 1][..i] == ts[..i];
        m := m[ts[i].id := ts[i]];
        i := i + 1;
      }
      assert ts[..|ts|] == ts;
    }

    /** The loop over one vehicle's steps: each cloned, its task looked up by id. */
    static method RebuildRoute(r: Route, m: map<int, Task>) returns (list: Route)
      requires forall k :: 0 <= k < |r| ==> r[k].task.id in m
      ensures list == RebindRoute(r, m)
    {
      list := [];
      var j := 0;
      while j < |r|
        invariant j <= |r| && |list| == j
        invariant forall k :: 0 <= k < j ==> list[k] == r[k].(task := m[r[k].task.id])
      {
        list := list + [r[j].(task := m[r[j].task.id])];
        j := j + 1;
      }
    }

    /** SLS(): from newPlan, with a new neighbour set, one round per element of
        `rounds` (a do-while loop). met lists the plans met: the start, then the
        plan each round moves to. newPlan becomes the first of them with the
        least cost, met[best], and newCost its cost. */
    method SLS(rounds: seq<Round>) returns (ghost met: seq<Plan>, ghost best: nat)
      requires newPlan != null && tasks != [] && |rounds| >= 1
      requires Current(newPlan.Content(), vehicles, tasks)
      modifies this
      ensures vehicles == old(vehicles) && tasks == old(tasks) && currentPlan == old(currentPlan)
      ensures currentCost == old(currentCost)
      ensures newPlan != null && Current(newPlan.Content(), vehicles, tasks)
      ensures Covers(old(newPlan.Content()), vehicles) && Covers(newPlan.Content(), vehicles)
      ensures newCost == PlanCost(dist, newPlan.Content(), vehicles)
      ensures newCost <= PlanCost(dist, old(newPlan.Content()), vehicles)
      ensures |met| == |rounds| + 1 && met[0] == old(newPlan.Content())
      ensures forall k :: 0 <= k < |met| ==> Current(met[k], vehicles, tasks)
      ensures AllCovered(met, vehicles) && FirstCheapest(dist, met, vehicles, best, newCost)
      ensures met[best] == newPlan.Content()
    {
      neighbors := new NeighbourSet();
      var bestA, costBestA;
      bestA, costBestA, met, best := Rounds(newPlan, rounds);
      newPlan := bestA;
      newCost := costBestA;
    }

    /** The do-while loop of SLS from A0: one round per element of rounds. met
        lists the plans met, A0 first, and bestA holds met[best], the first of
        them with the least cost, costBestA. */
    method Rounds(A0: COD, rounds: seq<Round>) returns (bestA: COD, costBestA: real, ghost met: seq<Plan>, ghost best: nat)
      requires tasks != [] && Current(A0.Content(), vehicles, tasks)
      requires AllCurrent(neighbors.elems, vehicles, tasks)
      modifies neighbors
      ensures |met| == |rounds| + 1 && met[0] == A0.Content()
      ensures forall k :: 0 <= k < |met| ==> Current(met[k], vehicles, tasks)
      ensures AllCovered(met, vehicles) && FirstCheapest(dist, met, vehicles, best, costBestA)
      ensures met[best] == bestA.Content()
    {
      CurrentCovers(A0.Content(), vehicles, tasks);
      var A := A0;
      bestA := A;
      costBestA := C(A, vehicles, dist);
      met, best := [A0.Content()], 0;
      var i := 0;
      while i < |rounds|
        invariant i <= |rounds|
        invariant |met| == i + 1 && met[0] == A0.Content() && met[i] == A.Content()
        invariant forall k :: 0 <= k < |met| ==> Current(met[k], vehicles, tasks)
        invariant AllCovered(met, vehicles) && best < |met| && met[best] == bestA.Content()
        invariant FirstCheapest(dist, met, vehicles, best, costBestA)
        invariant AllCurrent(neighbors.elems, vehicles, tasks)
      {
        A := Round(A, rounds[i]);
        bestA, costBestA, met, best := Keep(A, bestA, costBestA, met, best);
        i := i + 1;
      }
    }

    /** The end of a round of SLS: costA = C(A), and A becomes bestA exactly
        when it is strictly cheaper. met gains A's plan. */
    method Keep(A: COD, bestA: COD, costBestA: real, ghost met: seq<Plan>, ghost best: nat)
      returns (bestA': COD, costBestA': real, ghost met': seq<Plan>, ghost best': nat)
      requires Current(A.Content(), vehicles, tasks)
      requires AllCovered(met, vehicles) && FirstCheapest(dist, met, vehicles, best, costBestA)
      requires met[best] == bestA.Content()
      ensures met' == met + [A.Content()]
      ensures AllCovered(met', vehicles) && FirstCheapest(dist, met', vehicles, best', costBestA')
      ensures met'[best'] == bestA'.Content()
    {
      CurrentCovers(A.Content(), vehicles, tasks);
      var costA := C(A, vehicles, dist);
      FirstCheapestStep(dist, met, vehicles, best, costBestA, A.Content());
      met' := met + [A.Content()];
      if costA < costBestA {
        bestA', costBestA', best' := A, costA, |met|;
      } else {
        bestA', costBestA', best' := bestA, costBestA, best;
      }
    }

    /** The body of the loop of SLS: oldA = A; chooseNeighbors(oldA);
        A = localChoice(oldA). */
    method Round(oldA: COD, round: Round) returns (A: COD)
      requires Current(oldA.Content(), vehicles, tasks) && tasks != []
      requires AllCurrent(neighbors.elems, vehicles, tasks)
      modifies neighbors
      ensures Current(A.Content(), vehicles, tasks) && AllCurrent(neighbors.elems, vehicles, tasks)
    {
      var _, _ := ChooseNeighbors(oldA, round.draws);
      AllCurrentCovers(neighbors.elems, vehicles, tasks);
      ghost var before := neighbors.elems;
      A := LocalChoice(oldA, round.coin, round.pick);
      if A != oldA {
        ghost var k :| 0 <= k < |before| && before[k] == A;
        assert Current(before[k].Content(), vehicles, tasks);
      }
    }

    /** chooseNeighbors(oldA): the neighbours of oldA are added to the set, which
        keeps those of earlier rounds. */
    method ChooseNeighbors(oldA: COD, draws: Draws) returns (vRand: Vehicle, N: seq<COD>)
      requires Current(oldA.Content(), vehicles, tasks) && tasks != []
      requires AllCurrent(neighbors.elems, vehicles, tasks)
      modifies neighbors
      ensures vRand in vehicles && Busy(oldA.Content(), vRand) && Located(oldA.Content(), tasks)
      ensures neighbors.elems == old(neighbors.elems) + N
      ensures AllCurrent(neighbors.elems, vehicles, tasks)
    {
      vRand, N := CurrentNeighbours(oldA, vehicles, tasks, draws);
      AllCurrentConcat(neighbors.elems, N, vehicles, tasks);
      neighbors.elems := neighbors.elems + N;
    }

    /** localChoice(oldA): with no neighbour, or with probability one half, oldA;
        otherwise one of the cheapest neighbours, and the set is emptied. */
    method LocalChoice(oldA: COD, coin: Fraction, pick: Fraction) returns (A: COD)
      requires forall k :: 0 <= k < |neighbors.elems| ==> Covers(neighbors.elems[k].Content(), vehicles)
      modifies neighbors
      ensures var N := old(neighbors.elems);
        && (N == [] || coin >= 0.5 ==> A == oldA && neighbors.elems == N)
        && (N != [] && coin < 0.5 ==>
              && neighbors.elems == [] && A in N
              && forall k :: 0 <= k < |N| ==>
                   PlanCost(dist, A.Content(), vehicles) <= PlanCost(dist, N[k].Content(), vehicles))
    {
      A := Choose(neighbors.elems, oldA, vehicles, dist, coin, pick);
      if neighbors.elems != [] && coin < 0.5 {
        neighbors.elems := [];
      }
    }
  }

  /** The choice of localChoice over the listed neighbours, without the draw that
      breaks ties. */
  method Choose(N: seq<COD>, oldA: COD, vehicles: seq<Vehicle>, dist: Distance, coin: Fraction, pick: Fraction)
    returns (A: COD)
    requires forall k :: 0 <= k < |N| ==> Covers(N[k].Content(), vehicles)
    ensures N == [] || coin >= 0.5 ==> A == oldA
    ensures N != [] && coin < 0.5 ==>
      A in N && forall k :: 0 <= k < |N| ==> PlanCost(dist, A.Content(), vehicles) <= PlanCost(dist, N[k].Content(), vehicles)
  {
    A := Search.LocalChoice(N, oldA, vehicles, dist, coin, pick);
  }

  /** The HashSet of neighbours: new COD objects only, so adding never meets one
      already there; kept in insertion order. */
  class NeighbourSet {
    var elems: seq<COD>

    constructor()
      ensures elems == []
    {
      elems := [];
    }
  }

  /** The vehicle loop of placeTask over the committed plan A: the first vehicle
      that passes the test gets the task in a clone of A; null when none does. */
  method FirstPlacement(A: COD, vehicles: seq<Vehicle>, tasks: seq<Task>, task: Task, rp: Fraction, rd: Fraction)
    returns (c: COD?)
    requires Current(A.Content(), vehicles, tasks) && NoRepeats(tasks) && task !in A.index
    ensures var pick := Taker(A.Content(), vehicles, task.weight);
      && (c == null <==> pick.None?)
      && (c != null ==>
            && fresh(c) && c.Content() == PlaceOnVehicle(A.Content(), pick.value, task, rp, rd)
            && Current(c.Content(), vehicles, tasks + [task]) && NoRepeats(tasks + [task]))
  {
    ghost var P := A.Content();
    CurrentCovers(P, vehicles, tasks);
    var i := 0;
    while i < |vehicles|
      invariant i <= |vehicles|
      invariant Taker(P, vehicles[i..], task.weight) == Taker(P, vehicles, task.weight)
    {
      var v := vehicles[i];
      var r := A.routes[v];
      if (|r| < 1 && v.capacity >= task.weight) || (|r| >= 1 && r[|r| - 1].remaining >= task.weight) {
        assert Taker(P, vehicles[i..], task.weight) == Some(v);
        TakerOnValid(P, vehicles, task.weight);
        assert RouteOk(r, v.capacity);
        NoSingleStep(r);
        c := PutTask(A, v, task, rp, rd);
        PlaceCurrent(P, vehicles, tasks, task, rp, rd);
        return;
      }
      assert vehicles[i..][1..] == vehicles[i + 1..];
      i := i + 1;
    }
    c := null;
  }

  /** The placement of placeTask on a clone of the committed plan: on a non-empty
      route the two insertions at the drawn positions and the index entry, then
      COD.updateCapacity(v, 0); where that reports an overload, COD.addTask on a
      fresh clone. */
  method PutTask(A: COD, v: Vehicle, t: Task, rp: Fraction, rd: Fraction) returns (A1: COD)
    requires v in A.routes && |A.routes[v]| != 1 && t.weight <= v.capacity
    ensures fresh(A1) && A1.Content() == PlaceOnVehicle(A.Content(), v, t, rp, rd)
  {
    A1 := A.Clone();
    if |A1.routes[v]| > 0 {
      var ok := SlotIn(A1, v, t, rp, rd);
      if !ok {
        A1 := A.Clone();
        ok := A1.AddTask(v, t);
      }
    } else {
      var _ := A1.AddTask(v, t);
    }
  }

  /** The insertions and the recomputation of placeTask, on the clone. */
  method SlotIn(c: COD, v: Vehicle, t: Task, rp: Fraction, rd: Fraction) returns (ok: bool)
    requires v in c.routes && |c.routes[v]| > 1
    modifies c
    ensures ok == Propagate(Slotted(old(c.routes[v]), t, rp, rd), 0, v.capacity).1
    ensures ok ==> c.Content() == PlaceOnVehicle(old(c.Content()), v, t, rp, rd)
  {
    ghost var P := c.Content();
    var n := |c.routes[v]|;
    var indexP := NextInt(rp, n - 1);
    var indexD := NextInt(rd, n - indexP) + indexP;
    c.routes := c.routes[v := InsertAt(c.routes[v], indexD, NewDelivery(t, 0))];
    c.routes := c.routes[v := InsertAt(c.routes[v], indexP, NewPickup(t, 0))];
    c.index := c.index[t := v];
    assert c.routes == P.routes[v := Slotted(P.routes[v], t, rp, rd)];
    ok := c.UpdateCapacity(v, 0);
  }

  /** The neighbours one round of chooseNeighbors finds for a plan carrying the
      listed tasks: each carries them too. */
  method CurrentNeighbours(oldA: COD, vehicles: seq<Vehicle>, tasks: seq<Task>, draws: Draws)
    returns (vRand: Vehicle, N: seq<COD>)
    requires Current(oldA.Content(), vehicles, tasks) && tasks != []
    ensures vRand in vehicles && Busy(oldA.Content(), vRand) && Located(oldA.Content(), tasks)
    ensures Contents(N) == Neighbours(oldA.Content(), vRand, vehicles, tasks, draws)
    ensures AllCurrent(N, vehicles, tasks)
  {
    ghost var P := oldA.Content();
    ValidIsShaped(P);
    assert tasks[0] in Assigned(P);
    SomeoneBusy(P, vehicles);
    CurrentCovers(P, vehicles, tasks);
    forall k | 0 <= k < |tasks| ensures tasks[k] in oldA.index {
      assert tasks[k] in Listed(tasks);
    }
    vRand, N := Search.ChooseNeighbors(oldA, vehicles, tasks, draws);
    NeighboursValid(P, vRand, vehicles, tasks, draws);
    forall k | 0 <= k < |N| ensures Current(N[k].Content(), vehicles, tasks) {
      ContentsAt(N, k);
      assert Contents(N)[k] in Neighbours(P, vRand, vehicles, tasks, draws);
      NeighbourCurrent(P, N[k].Content(), vehicles, tasks);
    }
  }

  /** A prefix of a list without repeats has none. */
  lemma NoRepeatsPrefix(ts: seq<Task>, n: nat)
    requires NoRepeats(ts) && n <= |ts|
    ensures NoRepeats(ts[..n])
  {
  }
}
