# Pickup-and-delivery planners and the rabbits simulation, in Dafny

This project models the planning code of a logistics agent platform and proves
what it promises. A fleet of vehicles with capacities must carry transport
tasks, each picked up in one city and delivered in another. The model covers
four parts of the code.

- **The plan (`COD`) and its steps.** Each vehicle has an ordered list of pickup
  and delivery steps. Each step is annotated with the free room left after it.
  A task-to-vehicle index goes with the lists. The model covers:
  - `addTask`, `updateCapacity`, `setNextVAction`, `nextVAction`, `nextTask` and `clone`;
  - the steps' own `updateCapacity`, `equals` and `hashCode`.
- **The local search.** This search is shared by the current centralized
  planner and the two auction agents (`AuctionAgent`, `AuctionAgentOpt`). The
  model covers:
  - the round-robin cold start;
  - the two neighbourhood moves, `changingVehicle` and `changingVActionOrder`;
  - `chooseNeighbors`, `localChoice`, the cost `C` and the `SLS` loop.

  The older centralized planner, which has its own variants, is modelled beside it.
- **The auction bookkeeping.** This covers placing an auctioned task, the
  warm start that rebinds tasks by id, committing or rolling back after the
  auction result, and the final `plan()`.
- **The other two programs.**
  - The single-vehicle deliberative breadth-first search over `State` objects.
  - The rabbits grid simulation: the garden, the rabbits and the model's agent list.

Plans, states, the garden and the rabbits are classes whose methods update
their fields, as in the Java code. Each method is proved against a
specification function on values (`Content()`, `Snap()`, `Survivors`) or
states its new state outright. Lemmas then prove what the code promises about
those functions:
- a valid plan stays valid;
- capacity annotations are exact;
- the index agrees with the routes;
- a neighbour keeps the task set;
- the best cost never rises;
- the BFS terminates;
- free room plus load is conserved;
- the reaping loop keeps exactly the survivors.

Random numbers are inputs to the model. A `Fraction` in [0, 1) stands for a
draw of `Math.random()` or `Random`, and a sequence of `Round`s stands for the
time-bounded loops.

## Model

| member | source | states |
|---|---|---|
| Logistics.NextInt | centralized/src/agents/CentralizedAgent.java:188 | a draw of `Random.nextInt(n)` is an index below n |
| Logistics.NextIntIsFloor | centralized/src/agents/CentralizedAgent.java:169 | `(int) (Math.random() * n)` is the integer part of r * n |
| Logistics.NextIntReaches | centralized/src/agents/CentralizedAgent.java:188 | every index below n is the result of some draw, so every vehicle can be drawn |
| Logistics.Wrap32 | centralized/src/model/VAction.java:45-51 | Java `int` arithmetic: the result lies in the 32-bit range and agrees with the exact value modulo 2^32 |
| VActions.UpdateCapacity | auction/src/model/VPickupAction.java:16-20 | a pickup's annotation becomes the capacity before it minus the weight, and it reports whether that is non-negative; kind and task are kept; a delivery (centralized/src/model/VDeliveryAction.java lines 16-19) adds the weight back and always reports true |
| VActions.HashCodeAgreesWithEquals | centralized/src/model/VAction.java:44-81 | steps that `equals` calls equal hash equally; the annotation plays no part in either |
| VActions.HashCodeSeparatesKinds | centralized/src/model/VAction.java:45-51 | the pickup and the delivery of one task never hash alike, even with 32-bit wrap-around |
| VActions.NewPickup | auction/src/model/VPickupAction.java:10-13 | the pickup constructor stores task and annotation and fixes the kind; its city is the pickup city (lines 33-35) and it adds the weight to the load |
| VActions.NewDelivery | centralized/src/model/VDeliveryAction.java:10-13 | the delivery constructor stores task and annotation and fixes the kind; its city is the delivery city (lines 32-34) and it removes the weight from the load |
| VActions.LoadAppend | centralized/src/model/VAction.java:12-15 | the load a route carries is additive over its parts |
| VActions.LoadSameKeys | centralized/src/model/VAction.java:58-81 | the load depends only on what `equals` compares (kind and task), not on the annotations |
| VActions.PairLoad | centralized/src/model/COD.java:137-147 | a pickup followed by its delivery adds no load |
| Routes.IndexOf | centralized/src/agents/CentralizedAgent.java:232 | `LinkedList.indexOf`: the first position whose step has the given kind and task, or -1 when there is none |
| Routes.Find | centralized/src/model/COD.java:78-86 | the identity search: the first position holding exactly the step, or -1 |
| Routes.RecomputeSpec | centralized/src/model/COD.java:171-178 | the loop of `updateCapacity`: each annotation becomes the one before minus the load picked up since; it succeeds exactly when no pickup goes below zero, keeps the steps and what precedes k, and a failure leaves all later steps untouched |
| Routes.PropagateSpec | centralized/src/model/COD.java:149-179 | `updateCapacity(v, start)` keeps the steps and those before start, succeeds exactly when no pickup at or after max(start, 1) carries more than the capacity, and then annotates the whole route correctly |
| Routes.PropagateFromSpec | centralized/src/model/COD.java:156-163 | the start > 0 branch: the walk begins from the annotation before start |
| Routes.PropagateFromFirstSpec | centralized/src/model/COD.java:164-169 | the start == 0 branch: the first step is reset from the capacity and its own result is ignored |
| Routes.ConsistentFeasible | centralized/src/model/VAction.java:12-15 | with correct annotations, every annotation is non-negative exactly when the load never exceeds the capacity |
| Routes.PropagateFeasible | centralized/src/model/COD.java:149-179 | a successful walk leaves only non-negative annotations when no task is heavier than the vehicle, even though the first step's own check is discarded |
| Routes.IndexOfAt | centralized/src/agents/CentralizedAgent.java:285 | the search returns the first matching position |
| Routes.CarriedSameKeys | centralized/src/model/VAction.java:58-81 | routes equal step by step under `equals` carry the same loads |
| Plans.EmptyPlanValid | centralized/src/model/COD.java:18-25 | `new COD(vehicles)`: one empty route per vehicle and no task assigned, a valid plan |
| Plans.FirstIsPickup | centralized/src/model/COD.java:89-112 | the "first va wasnt pickup" exits of `nextVAction(v)` and `nextTask(v)` are never taken on a well-formed route |
| Plans.AddTaskKeepsValid | centralized/src/model/COD.java:137-147 | `addTask` of an unassigned task that fits keeps the plan valid and assigns exactly that task more, on the same vehicles |
| Plans.AddTaskIndex | centralized/src/model/COD.java:141 | the index entry `addTask` writes agrees with the new route |
| Plans.UpdateCapacityOnValid | centralized/src/model/COD.java:149-179 | on a valid plan `updateCapacity(v, 0)` changes nothing and succeeds |
| Plans.COD.constructor | centralized/src/model/COD.java:18-25 | the new object holds the empty plan of the vehicles |
| Plans.COD.Copy | centralized/src/model/COD.java:27-39 | the copy constructor copies the routes and the index |
| Plans.COD.Clone | centralized/src/model/COD.java:41-44 | `clone` returns a fresh object with the same contents |
| Plans.COD.NextVAction | centralized/src/model/COD.java:46-56 | the step after va in its vehicle's route, and null exactly when va is last or absent |
| Plans.COD.SetNextVAction | centralized/src/model/COD.java:58-87 | a null vaNext changes nothing; otherwise vaNext is inserted right after vaOrig in v's route and nothing else changes |
| Plans.COD.FirstVAction | centralized/src/model/COD.java:89-100 | the first step of v's route, a pickup, and null exactly when the route is empty |
| Plans.COD.NextTask | centralized/src/model/COD.java:102-112 | the task of v's first step, and null exactly when the route is empty |
| Plans.COD.SetFirstVAction | centralized/src/model/COD.java:114-119 | vaNext goes in front of v's route and its task is assigned to v; null changes nothing |
| Plans.COD.VehicleOf | centralized/src/model/COD.java:129-131 | the vehicle the index gives for the step's task, null exactly when the task is unassigned |
| Plans.COD.SetVehicle | centralized/src/model/COD.java:133-135 | only the index entry of the step's task changes |
| Plans.COD.AddTask | centralized/src/model/COD.java:137-147 | succeeds exactly when the task fits the vehicle, then prepends its pickup and delivery annotated from the capacity and assigns it; otherwise nothing changes |
| Plans.COD.UpdateCapacity | centralized/src/model/COD.java:149-179 | the loop leaves v's route as the walk computes it (proved against the walk by a loop invariant), reports its verdict, and changes nothing else |
| RouteShapes.TasksSplit | centralized/src/agents/CentralizedAgent.java:194-195 | the tasks of a route are those with a pickup and those with a delivery on it |
| RouteShapes.PairPositions | centralized/src/agents/CentralizedAgent.java:232-240 | in a well-formed route `indexOf` finds a carried task's pickup, before its delivery |
| RouteShapes.DistinctUnique | centralized/src/model/VAction.java:58-81 | in a route without repeated steps, two positions holding `equals`-equal steps are the same position |
| RouteShapes.DistinctIndexOf | centralized/src/agents/CentralizedAgent.java:285 | in such a route both `indexOf` and the identity search find a step at its own position |
| RouteShapes.EmbedsOrdered | centralized/src/agents/CentralizedAgent.java:238-240 | a route whose steps occur, in order, in a well-ordered route without repeats is itself ordered and without repeats |
| RouteShapes.SameKeysShape | centralized/src/model/COD.java:149-179 | re-annotating a route keeps its shape, its tasks and the tasks' weights |
| RouteShapes.RemovePairAt | centralized/src/agents/CentralizedAgent.java:239-240 | removing two steps shortens the route by two and keeps the others in order |
| RouteShapes.RemoveStepsIsRemovePair | centralized/src/agents/CentralizedAgent.java:235-240 | the two `remove` calls of `changingVehicle` take out exactly the task's pickup and delivery, found by `indexOf` |
| RouteShapes.PickupSurvives | centralized/src/agents/CentralizedAgent.java:239-240 | removing the delivery first does not move the pickup the second `remove` finds |
| RouteShapes.DropBoth | centralized/src/agents/CentralizedAgent.java:239-240 | the two removals, delivery then pickup, give the route without both |
| RouteShapes.RemovePairKeepsRest | centralized/src/agents/CentralizedAgent.java:239-240 | every other step survives the removals |
| RouteShapes.RemovePairShape | centralized/src/agents/CentralizedAgent.java:239-240 | removing a task's pickup and delivery keeps the route well formed and serves every task but that one |
| RouteShapes.RemovePairTasksOf | centralized/src/agents/CentralizedAgent.java:239-240 | the removal takes exactly that task off the pickups and off the deliveries |
| RouteShapes.RemovePairDropsTask | centralized/src/agents/CentralizedAgent.java:239-240 | in a route without repeats the task is gone after the removal |
| RouteEdits.RemovePairCarried | centralized/src/agents/CentralizedAgent.java:239-240 | after the removal the load is unchanged before the pickup, lighter by the task's weight between the two steps, and unchanged after the delivery |
| RouteEdits.RemoveTaskOk | centralized/src/agents/CentralizedAgent.java:259-261 | the old vehicle's side of `changingVehicle`: `updateCapacity(v1, indexT)` succeeds on what is left and annotates it correctly, or nothing follows indexT and the route is already correct; the task is gone |
| RouteEdits.InsertAtTwice | centralized/src/agents/CentralizedAgent.java:249-250 | adding the delivery at indexD and then the pickup at indexP puts the pickup at indexP and the delivery right before what was at indexD |
| RouteEdits.InsertPairAt | centralized/src/agents/CentralizedAgent.java:249-250 | the inserted route is two longer, holds the new steps at their places and every old step, in order |
| RouteEdits.InsertPairShape | centralized/src/agents/CentralizedAgent.java:246-250 | since indexP <= indexD the pickup lands before the delivery: the route stays well formed and serves the task too |
| RouteEdits.InsertedPairDistinct | centralized/src/agents/CentralizedAgent.java:249-250 | inserting a new task's steps repeats no step |
| RouteEdits.InsertedPairOrdered | centralized/src/agents/CentralizedAgent.java:249-250 | after the insertion every pickup still precedes its delivery |
| RouteEdits.InsertPairTasksOf | centralized/src/agents/CentralizedAgent.java:249-250 | the insertion adds exactly the task to the pickups and to the deliveries |
| RouteEdits.InsertTaskOk | centralized/src/agents/CentralizedAgent.java:245-264 | the new vehicle's side of `changingVehicle`: `updateCapacity(v2, 0)` succeeds exactly when the load never exceeds the capacity, and then the route is correct and serves the task too |
| RouteEdits.PrependOk | centralized/src/model/COD.java:137-147 | a new task that fits, put in front of a correct route by `addTask`, leaves a correct route serving it too |
| RouteEdits.PropagateConsistent | centralized/src/model/COD.java:149-179 | `updateCapacity(v, 0)` on a correctly annotated route that never overloads changes nothing and succeeds |
| RouteEdits.SwapShape | centralized/src/agents/CentralizedAgent.java:277-298 | on a well-formed route the three guards of `changingVActionOrder` hold exactly when exchanging the two steps keeps the route well formed |
| RouteEdits.SwapTasks | centralized/src/agents/CentralizedAgent.java:300-319 | an exchange keeps the tasks picked up and the tasks delivered |
| RouteEdits.SwapDistinct | centralized/src/agents/CentralizedAgent.java:300-319 | an exchange repeats no step |
| RouteEdits.SwapOrdered | centralized/src/agents/CentralizedAgent.java:281-298 | after an allowed exchange every pickup still precedes its delivery |
| RouteEdits.SwapRefused | centralized/src/agents/CentralizedAgent.java:277-298 | every exchange the guards refuse would put some delivery before its pickup |
| RouteEdits.ReorderEditIsSwap | centralized/src/agents/CentralizedAgent.java:300-319 | on a route without repeats the removals and `setNextVAction` calls of `changingVActionOrder` exchange the steps at i and j |
| RouteEdits.AdjacentEdit | centralized/src/agents/CentralizedAgent.java:305-307 | for j = i + 1, removing va1 and putting it after va2 is the exchange |
| RouteEdits.FarEditMovesFirst | centralized/src/agents/CentralizedAgent.java:310-311 | removing va2 and putting va1 after vaPre2 puts va1 where va2 was |
| RouteEdits.FarEditDropsFirst | centralized/src/agents/CentralizedAgent.java:312 | removing va1 then takes out its original occurrence |
| RouteEdits.FarEdit | centralized/src/agents/CentralizedAgent.java:308-319 | the general case, with va2 put back first or after vaPre1, is the exchange |
| RouteEdits.FarEditPutsSecond | centralized/src/agents/CentralizedAgent.java:316-318 | for i > 0, putting va2 after vaPre1 completes the exchange |
| Moves.InsertPositions | centralized/src/agents/CentralizedAgent.java:246-247 | the drawn indexP and indexD satisfy indexP <= indexD < n and indexP < n - 1 |
| Moves.InsertPositionsReach | centralized/src/agents/CentralizedAgent.java:246-247 | every pair of positions within those bounds is drawn for some random numbers |
| Moves.InsertedFits | centralized/src/agents/CentralizedAgent.java:245-264 | on the new vehicle, `updateCapacity(v2, 0)` succeeds exactly when the inserted route never overloads it, and always when the `addTask` branch was taken |
| Moves.InsertedValid | centralized/src/agents/CentralizedAgent.java:245-264 | when it succeeds the new vehicle's route is correct again and serves t besides its old tasks |
| Moves.MoveIndex | centralized/src/agents/CentralizedAgent.java:252 | moving t's index entry to v2 along with its steps keeps the index in agreement |
| Moves.MoveTaskOk | centralized/src/agents/CentralizedAgent.java:225-265 | `changingVehicle` on a valid plan, for a task of v1 that fits v2, fails exactly when the insertion overloads v2 (never when v2's route has at most two steps), and otherwise yields a valid plan with the same vehicles in which only v1's route (t removed), v2's route (t inserted) and t's index entry changed |
| Moves.MoveTaskSides | centralized/src/agents/CentralizedAgent.java:225-265 | the same, once both routes are known to be correct |
| Moves.MoveTaskFits | centralized/src/agents/CentralizedAgent.java:264 | the move is kept exactly when the insertion never overloads v2 |
| Moves.MoveTaskValid | centralized/src/agents/CentralizedAgent.java:230-264 | a kept move satisfies everything `MovedTo` lists |
| Moves.MovedToHolds | centralized/src/agents/CentralizedAgent.java:230-264 | two correct routes with t moved between them make a valid plan with only those two routes and t's entry changed |
| Moves.SourceSide | centralized/src/agents/CentralizedAgent.java:232-261 | on the old vehicle the removals and `updateCapacity(v1, indexT)` leave a correct route without t, whose steps are the old ones less t's two |
| Moves.MoveTaskIs | centralized/src/agents/CentralizedAgent.java:230-264 | between two vehicles the move replaces v1's route, then v2's route and t's entry, and keeps the result when v2's walk succeeds |
| Moves.ReplaceTwo | centralized/src/agents/CentralizedAgent.java:230-264 | new correct routes for v1 and v2, with t moved from one to the other, keep a valid plan valid |
| Moves.SameTasksIndex | centralized/src/agents/CentralizedAgent.java:300-319 | a new route with the same tasks keeps the index in agreement |
| Moves.ReorderOk | centralized/src/agents/CentralizedAgent.java:267-323 | `changingVActionOrder` on a valid plan succeeds exactly when the exchanged route is well formed and never overloads the vehicle; then the plan is valid, the index unchanged, the route the exchanged one re-annotated, and every other route untouched |
| Moves.ChangingVehicle | centralized/src/agents/CentralizedAgent.java:225-265 | the planner's edits of the clone return null exactly when the move fails, and otherwise a fresh object holding the moved plan; A is left alone |
| Moves.TakeFromVehicle | centralized/src/agents/CentralizedAgent.java:235-240 | the two `remove` calls, delivery then pickup, on v1's route and nothing else |
| Moves.SettleVehicle | centralized/src/agents/CentralizedAgent.java:259-261 | `updateCapacity(v1, indexT)` is made, its result ignored, only when indexT is still a position of the route |
| Moves.AddToVehicle | centralized/src/agents/CentralizedAgent.java:244-255 | on a route of more than two steps, delivery at indexD then pickup at indexP, both annotated 0, and t indexed to v2; otherwise `addTask` |
| Moves.ChangingVActionOrder | centralized/src/agents/CentralizedAgent.java:267-323 | the guards and list edits on the clone return null exactly when the exchange is refused or overloads the vehicle, and otherwise a fresh object holding the exchanged plan |
| Moves.Exchange | centralized/src/agents/CentralizedAgent.java:300-319 | the list edits of the two cases, on v's route only |
| Moves.ExchangeFar | centralized/src/agents/CentralizedAgent.java:308-319 | the general case: va2 out, va1 after vaPre2, va1 out, va2 in front or after vaPre1 |
| Moves.RemoveThenLink | centralized/src/agents/CentralizedAgent.java:305-307 | a `remove` followed by `setNextVAction(after, y, v)` |
| Moves.RemoveThenPut | centralized/src/agents/CentralizedAgent.java:312-318 | a `remove` followed by `setNextVAction(v, y)` when va1 was first, `setNextVAction(vaPre1, y, v)` otherwise |
| Costs.Leg | centralized/src/agents/CentralizedAgent.java:379-381 | a leg costs distance times cost per kilometre, and nothing when the vehicle stays in its city |
| Costs.RouteCost | centralized/src/agents/CentralizedAgent.java:377-383 | a route never costs a negative amount |
| Costs.RouteCostAppend | centralized/src/agents/CentralizedAgent.java:377-383 | driving a route in two pieces, the second from where the first ends, costs what driving it in one does |
| Costs.RouteCostSameKeys | centralized/src/agents/CentralizedAgent.java:377-383 | the cost depends only on the steps, never on their capacity annotations |
| Costs.PlanCost | centralized/src/agents/CentralizedAgent.java:372-386 | a plan never costs a negative amount |
| Costs.EmptyPlanCost | centralized/src/agents/CentralizedAgent.java:372-386 | a plan with only empty routes costs nothing |
| Costs.PlanCostSameKeys | centralized/src/agents/CentralizedAgent.java:372-386 | plans whose routes agree step by step, annotations aside, cost the same |
| Costs.C | centralized/src/agents/CentralizedAgent.java:372-386 | the two nested loops compute the plan's cost (proved with loop invariants against the recursive definition) |
| InitialSolution.Succ | centralized/src/agents/CentralizedAgent.java:128-134 | `lastVehicle++` with the wrap to 0 stays a position of the list |
| InitialSolution.StepsSucc | centralized/src/agents/CentralizedAgent.java:122-130 | one more try moves the position one step on, cyclically |
| InitialSolution.StepsValue | centralized/src/agents/CentralizedAgent.java:122-130 | fewer than n tries from pos visit pos, pos + 1, ..., n - 1, 0, 1, ... |
| InitialSolution.FirstFit | centralized/src/agents/CentralizedAgent.java:121-131 | the number of refusals before the first vehicle that can carry the weight, counted cyclically: every vehicle tried before it refuses, it accepts, and None exactly when all tried vehicles refuse |
| InitialSolution.FirstFitIs | centralized/src/agents/CentralizedAgent.java:121-131 | the vehicle the loop stops at is the one FirstFit names |
| InitialSolution.StepsCover | centralized/src/agents/CentralizedAgent.java:121-131 | n tries from any start reach every vehicle of the list |
| InitialSolution.PlaceFails | centralized/src/agents/CentralizedAgent.java:122-126 | a task is refused by all n tries exactly when no vehicle of the list can carry it |
| InitialSolution.UnplaceableCons | centralized/src/agents/CentralizedAgent.java:120 | some task of the list fits no vehicle exactly when the first one does not or some later one does not |
| InitialSolution.ListedCons | centralized/src/agents/CentralizedAgent.java:120 | the listed tasks are the first one and the rest |
| InitialSolution.ColdStartFails | centralized/src/agents/CentralizedAgent.java:120-135 | `selectInitialSolution` gives up (prints "Impossible to give task" and exits) exactly when some task fits no vehicle |
| InitialSolution.ColdStartValid | centralized/src/agents/CentralizedAgent.java:110-139 | when it succeeds, every listed task is assigned, to exactly one vehicle, and the plan is valid over the same vehicles |
| InitialSolution.SelectInitialSolution | centralized/src/agents/CentralizedAgent.java:110-139 | the loop over the tasks builds the plan ColdStart describes from the empty plan, and reports failure exactly when ColdStart gives up |
| InitialSolution.PlaceTask | centralized/src/agents/CentralizedAgent.java:121-134 | the inner loop gives the task to the vehicle Place names and moves lastVehicle one past it, or changes nothing when every vehicle refuses (proved with loop invariants against FirstFit) |
| Search.ValidIsShaped | centralized/src/model/COD.java:13-16 | a valid plan has well-formed routes and an index in agreement |
| Search.Contents | centralized/src/agents/CentralizedAgent.java:181 | the plans of the neighbour list, one per object |
| Search.ContentsAt | centralized/src/agents/CentralizedAgent.java:153-154 | `N.get(k)` holds the k-th plan of the list |
| Search.ShapedLocated | centralized/src/agents/CentralizedAgent.java:194-198 | on a well-shaped plan every assigned task's pickup is found in its vehicle's route, so `indexOf` in `changingVehicle` never gives -1 |
| Search.ShapedOrderable | centralized/src/agents/CentralizedAgent.java:300-319 | on a well-shaped plan a route repeats no step and all of its tasks are indexed to its vehicle, so `setNextVAction` never exits |
| Search.AsList | centralized/src/agents/CentralizedAgent.java:198-201 | a null result adds nothing to N, any other result adds itself |
| Search.TaskMovesStep | centralized/src/agents/CentralizedAgent.java:194-203 | one more task of the inner loop adds that task's move, if any, at the end |
| Search.TaskMovesValid | centralized/src/agents/CentralizedAgent.java:194-203 | every move the inner loop lists is a neighbour: valid, same vehicles, same tasks |
| Search.TaskMoveValid | centralized/src/agents/CentralizedAgent.java:195-201 | the move of one task, when it is tried and succeeds, is a neighbour |
| Search.MoveNeighbour | centralized/src/agents/CentralizedAgent.java:198 | a successful `changingVehicle` of a valid plan is a neighbour of it |
| Search.VehicleMovesValid | centralized/src/agents/CentralizedAgent.java:192-205 | every `changingVehicle` neighbour is valid with the same vehicles and tasks |
| Search.OrderMovesValid | centralized/src/agents/CentralizedAgent.java:209-221 | every `changingVActionOrder` neighbour is valid with the same vehicles and tasks |
| Search.NeighboursValid | centralized/src/agents/CentralizedAgent.java:178-223 | every plan `chooseNeighbors` lists for a valid plan is valid, over the same vehicles, with every task still on exactly one vehicle |
| Search.UniqueMeans | centralized/src/agents/CentralizedAgent.java:181 | no object occurs twice in the list, position by position |
| Search.ChooseNeighbors | centralized/src/agents/CentralizedAgent.java:178-223 | the drawn vehicle is busy, and N holds, as fresh distinct objects, exactly the successful moves of its tasks to every other vehicle (in vehicle then task order) followed by the successful exchanges of every pair i < j of its steps (in loop order) |
| Search.VehicleNeighbours | centralized/src/agents/CentralizedAgent.java:192-205 | the outer loop over the vehicles lists exactly the `changingVehicle` neighbours, in order |
| Search.MovesTo | centralized/src/agents/CentralizedAgent.java:194-203 | the loop over the tasks appends exactly the successful moves to v |
| Search.AddMove | centralized/src/agents/CentralizedAgent.java:195-201 | one turn appends the move when it is tried and succeeds, and nothing otherwise |
| Search.OrderNeighbours | centralized/src/agents/CentralizedAgent.java:209-221 | the two nested loops append exactly the successful exchanges of every pair i < j, in loop order |
| Search.AllRows | centralized/src/agents/CentralizedAgent.java:212-220 | once every row is done, the list holds every pair |
| Search.RowStep | centralized/src/agents/CentralizedAgent.java:213-219 | one more j appends the exchange of (i, j) to row i |
| Search.RowsStep | centralized/src/agents/CentralizedAgent.java:212-220 | one more i appends row i |
| Search.RowSplits | centralized/src/agents/CentralizedAgent.java:213-219 | the part of row i done so far and the pairs still to come make up row i and the later rows |
| Search.RowsSplit | centralized/src/agents/CentralizedAgent.java:212-220 | the rows done and the pairs from row i on are all of the pairs |
| Search.RowTurn | centralized/src/agents/CentralizedAgent.java:212-220 | one turn of the outer loop appends row i |
| Search.ExchangesOf | centralized/src/agents/CentralizedAgent.java:213-219 | the inner loop appends the exchanges of (i, j) for every j > i, in order |
| Search.ExchangeTurn | centralized/src/agents/CentralizedAgent.java:214-218 | one turn of the inner loop appends the exchange of (i, j) to the row |
| Search.AddExchange | centralized/src/agents/CentralizedAgent.java:215-218 | the exchange is appended when it succeeds, nothing otherwise |
| Search.Append | centralized/src/agents/CentralizedAgent.java:200 | `N.add(A)` appends A's plan and, A being new, keeps the objects distinct |
| Search.CostsOf | centralized/src/agents/CentralizedAgent.java:155 | the cost C of each neighbour, in list order |
| Search.Ties | centralized/src/agents/CentralizedAgent.java:153-166 | bestChoicesA is never empty and holds positions of N |
| Search.TiesAreMinima | centralized/src/agents/CentralizedAgent.java:153-166 | the scan keeps the least cost, and bestChoicesA holds exactly the positions where it is reached, in increasing order |
| Search.ScanStep | centralized/src/agents/CentralizedAgent.java:157-165 | a cheaper plan clears bestChoicesA and starts it again, an equally cheap one joins it, a dearer one is ignored |
| Search.LocalChoice | centralized/src/agents/CentralizedAgent.java:141-176 | oldA when N is empty or the coin says so; otherwise the cheapest plan that the draw picks among those bestChoicesA holds, a plan of N costing no more than any other |
| Search.PickTie | centralized/src/agents/CentralizedAgent.java:168-173 | the drawn element of bestChoicesA, which costs no more than any plan of N |
| Search.Scan | centralized/src/agents/CentralizedAgent.java:147-166 | the loop computes the cost of each plan by C and ends with exactly the positions Ties gives (loop invariant against Best and Ties) |
| CentralizedPlanner.SomeoneBusy | centralized/src/agents/CentralizedAgent.java:187-189 | a valid plan over the listed vehicles that carries a task gives one of them a route, so the retry loop can end |
| CentralizedPlanner.SLS | centralized/src/agents/CentralizedAgent.java:91-108 | the search fails exactly where the cold start gives up, and otherwise ends, after any number of rounds, with a valid plan over the listed vehicles carrying exactly the listed tasks; with no task it returns the empty plan before any round, the guard the source lacks (see Findings) |
| CentralizedPlanner.Iterate | centralized/src/agents/CentralizedAgent.java:99-105 | one round keeps the plan or moves to a neighbour of it, and keeps it valid, over the same vehicles, with the same tasks |
| CentralizedPlanner.NoTaskNoBusy | centralized/src/agents/CentralizedAgent.java:187-189 | as written, with no task the cold start gives the empty plan, on which the vehicle any draw names has no first step, so the retry loop of `chooseNeighbors` never ends |
| OldCentralizedPlanner.OldDrawNeverLast | centralized/agents/CentralizedAgent.java:176 | as written, `(int) (Math.random() * (size - 1))` never names the last vehicle |
| OldCentralizedPlanner.OldRetryStuck | centralized/agents/CentralizedAgent.java:175-177 | when only the last vehicle has work, no draw finds a busy vehicle |
| OldCentralizedPlanner.OldRetryExample | centralized/agents/CentralizedAgent.java:175-177 | a valid plan (two vehicles, the one task on the second) on which the retry loop never ends |
| OldCentralizedPlanner.DrawFindsBusy | centralized/src/agents/CentralizedAgent.java:187-189 | with `nextInt(size)` every busy vehicle is drawn by some random number |
| OldCentralizedPlanner.FirstMoveIs | centralized/agents/CentralizedAgent.java:207-230 | when the first step picks t up and v2 takes it without re-annotation, the move replaces v1's route by the rest re-annotated and puts t in front of v2's route |
| OldCentralizedPlanner.FirstMoveOk | centralized/agents/CentralizedAgent.java:207-230 | on a valid plan, moving v1's first task to a vehicle that can carry it never fails and yields a neighbour with t in front of v2's route |
| OldCentralizedPlanner.OldChangingVehicle | centralized/agents/CentralizedAgent.java:207-230 | the edits of the clone: `nextTask`, the two removals, `addTask`, `updateCapacity(v1, 0)`, and null exactly when `updateCapacity(v2, 0)` fails |
| OldCentralizedPlanner.FirstMovesValid | centralized/agents/CentralizedAgent.java:179-188 | every first-task move listed is a neighbour |
| OldCentralizedPlanner.TakersSnoc | centralized/agents/CentralizedAgent.java:179-188 | one more vehicle adds itself to the takers when it differs from vRand and its capacity is strictly above the weight |
| OldCentralizedPlanner.FirstMovesCount | centralized/agents/CentralizedAgent.java:179-188 | on a valid plan no first-task move fails: one neighbour per vehicle whose capacity is strictly above the weight |
| OldCentralizedPlanner.OldNeighboursValid | centralized/agents/CentralizedAgent.java:168-205 | every plan the older `chooseNeighbors` lists for a valid plan is a neighbour |
| OldCentralizedPlanner.OldChooseNeighbors | centralized/agents/CentralizedAgent.java:168-205 | with the draw corrected, the drawn vehicle is busy and N holds, as fresh distinct objects, exactly the first-task moves then the exchanges, in loop order |
| OldCentralizedPlanner.FirstNeighbours | centralized/agents/CentralizedAgent.java:179-188 | the loop over the vehicles lists exactly the first-task moves, in order |
| OldCentralizedPlanner.AddFirstMove | centralized/agents/CentralizedAgent.java:180-187 | one turn appends the move when v is not vRand, its capacity is above the weight and the move succeeds |
| OldCentralizedPlanner.OldLocalChoice | centralized/agents/CentralizedAgent.java:133-166 | the scan starts from oldA, so the plan returned is oldA or one of N and never costs more than oldA |
| OldCentralizedPlanner.ChooseAmong | centralized/agents/CentralizedAgent.java:137-165 | the drawn cheapest candidate or the first one, never dearer than the first |
| OldCentralizedPlanner.OldIterate | centralized/agents/CentralizedAgent.java:97-103 | one round keeps the plan or moves to a neighbour, keeps it valid with the same vehicles and tasks, and never makes it dearer |
| OldCentralizedPlanner.OldSLS | centralized/agents/CentralizedAgent.java:89-131 | the search fails exactly where the cold start over the unshuffled lists gives up, and otherwise ends with a valid plan carrying exactly the listed tasks that costs no more than the cold start; with no task it returns the empty plan before any round (see Findings) |
| OldCentralizedPlanner.OldNoTaskNoBusy | centralized/agents/CentralizedAgent.java:175-177 | as written, with no task the cold start gives the empty plan, on which the vehicle any draw names has no first step, so the retry loop never ends |
| AuctionPlacement.FirstTaker | auction/src/agent/AuctionAgent.java:103-105 | the vehicle loop of askPrice: the vehicle it picks is one of the listed vehicles |
| AuctionPlacement.FirstTakerOnValid | auction/src/agent/AuctionAgentOpt.java:102-104 | on a valid plan the test as written picks the first vehicle strong enough for the task, finds none exactly when every vehicle is too weak and busy, and otherwise throws on an empty vehicle that is too weak |
| AuctionPlacement.WellFormedLoad | auction/src/agent/AuctionAgent.java:104-105 | a route that delivers everything it picks up ends with no load |
| AuctionPlacement.CapacityAtEnd | auction/src/agent/AuctionAgent.java:105 | on a valid route the last step leaves the whole capacity free, so the test never looks at free room |
| AuctionPlacement.NoSingleStep | auction/src/agent/AuctionAgent.java:110-111 | a valid route never has exactly one step, so `nextInt(size - 1)` gets a positive bound |
| AuctionPlacement.EmptyWeakCrashes | auction/src/agent/AuctionAgent.java:103-105 | a fleet whose first vehicle is empty and too weak: the test as written throws, the corrected one picks the second vehicle |
| AuctionPlacement.Taker | auction/src/agent/AuctionAgent.java:103-105 | the corrected test: the vehicle it picks is one of the listed vehicles |
| AuctionPlacement.TakerOnValid | auction/src/agent/AuctionAgent.java:103-105 | on a valid plan the corrected test picks the first vehicle strong enough for the task, and finds none exactly when every vehicle is too weak |
| AuctionPlacement.TakerAgrees | auction/src/agent/AuctionAgent.java:103-105 | where the test as written does not throw it agrees with the corrected one |
| AuctionPlacement.PlaceAsWrittenOverloads | auction/src/agent/AuctionAgent.java:110-117 | a concrete plan and draws on which the insertion as written gives the vehicle 13 to carry on a capacity of 10, an invalid plan |
| AuctionPlacement.GiveRoute | auction/src/agent/AuctionAgent.java:114-117 | handing a new task to a vehicle together with a valid route serving it keeps the plan valid and adds exactly that task |
| AuctionPlacement.PlaceValid | auction/src/agent/AuctionAgent.java:106-120 | the corrected placement gives a valid plan with the same vehicles, the new task on v, every other route unchanged |
| AuctionPlacement.PlaceFallsBack | auction/src/agent/AuctionAgent.java:110-119 | on the plan of the overload example the corrected placement puts the task in front of the route |
| AuctionPlacement.NoTaskNoDraw | auction/src/agent/AuctionAgentOpt.java:359-361 | with no task on the plan every draw of the retry loop of chooseNeighbors goes round again, so plan() of AuctionAgentOpt, which has no empty-task guard, never ends on an empty task set |
| AuctionPlacement.NoTasksNoSteps | auction/src/agent/AuctionAgent.java:289-291 | a route is empty exactly when it carries no task |
| AuctionPlacement.SomeDrawEnds | auction/src/agent/AuctionAgent.java:181-186 | with the guard of AuctionAgent the plan carries a task, and some draw ends the retry loop |
| AuctionPlacement.PlaceCurrent | auction/src/agent/AuctionAgent.java:103-124 | after the corrected placement the plan carries exactly the listed tasks with the new one appended, on the vehicle the test picked |
| AuctionPlacement.ByIdSpec | auction/src/agent/AuctionAgent.java:158-161 | taskMap files each task under its own id and knows the id of every listed task |
| AuctionPlacement.ByIdFinds | auction/src/agent/AuctionAgent.java:158-161 | with unique ids every listed task is found again under its own id |
| AuctionPlacement.RebindRouteIdentity | auction/src/agent/AuctionAgent.java:163-168 | rebinding a route whose tasks taskMap gives back changes nothing |
| AuctionPlacement.RebindIdentity | auction/src/agent/AuctionAgent.java:156-174 | when the list holds exactly the tasks of the committed plan with unique ids, the warm start rebuilds the committed plan |
| AuctionPlacement.CurrentRebindable | auction/src/agent/AuctionAgent.java:156-174 | on such a plan every task of a route and of the index is found in taskMap under its id |
| AuctionPlacement.RebindIndexIdentity | auction/src/agent/AuctionAgent.java:171-173 | an index whose tasks taskMap gives back is rebuilt unchanged |
| AuctionPlacement.RebindIndexStep | auction/src/agent/AuctionAgent.java:171-173 | one more entry of the index loop adds the rebound task with its vehicle |
| Auction.CurrentCovers | auction/src/agent/AuctionAgent.java:406-408 | a plan over the listed vehicles has a route for each, so C can look them up |
| Auction.AllCurrentConcat | auction/src/agent/AuctionAgent.java:293-318 | neighbours added to a set of plans carrying the listed tasks keep the set that way |
| Auction.AllCurrentCovers | auction/src/agent/AuctionAgent.java:256-271 | every plan in such a set can be costed |
| Auction.NeighbourCurrent | auction/src/agent/AuctionAgent.java:283-319 | a neighbour of a plan carrying the listed tasks carries them too |
| Auction.LossAfterNullBid | auction/src/agent/AuctionAgent.java:86-92 | after a lost auction without a bid, dropping the last listed task leaves the committed plan carrying a task the list no longer holds |
| Auction.NoRepeatsPrefix | auction/src/agent/AuctionAgent.java:91 | dropping the last task keeps the list free of repeats |
| Auction.AuctionAgent.constructor | auction/src/agent/AuctionAgent.java:56-76 | no task yet, an empty route for every vehicle, the agent settled |
| Auction.AuctionAgent.PlaceTask | auction/src/agent/AuctionAgentOpt.java:101-126 | newPlan is null exactly when no vehicle passes the corrected test; otherwise it is a fresh plan holding the corrected placement and the task is appended to the list |
| Auction.AuctionAgent.AskPrice | auction/src/agent/AuctionAgent.java:97-133 | no bid exactly when no vehicle can take the task, with nothing changed but newPlan and newCost reset; otherwise newPlan carries the extended list and costs no more than the placed plan |
| Auction.AuctionAgent.AuctionResultAsWritten | auction/src/agent/AuctionAgent.java:79-94 | a win commits newPlan and its cost; a loss drops the last listed task, which after a loss without a bid leaves the agent unsettled |
| Auction.AuctionAgent.AuctionResult | auction/src/agent/AuctionAgent.java:79-94 | with the drop made only after a bid the agent is settled again after every auction |
| Auction.AuctionAgent.FinalPlan | auction/src/agent/AuctionAgent.java:177-217 | with no task every vehicle gets an empty plan; otherwise each vehicle gets its route in the searched plan, which carries exactly the given tasks and costs no more than the committed plan |
| Auction.AuctionAgent.Replan | auction/src/agent/AuctionAgent.java:188-196 | the lists are replaced and the search from the rebuilt committed plan ends with a plan carrying exactly the given tasks that costs no more |
| Auction.AuctionAgent.RoutesOf | auction/src/agent/AuctionAgent.java:201-214 | one route per vehicle, in list order |
| Auction.AuctionAgent.WarmStart | auction/src/agent/AuctionAgent.java:156-174 | a fresh plan holding the committed routes and index rebound by id |
| Auction.AuctionAgent.WarmStartCurrent | auction/src/agent/AuctionAgent.java:156-174 | on a committed plan carrying exactly the listed tasks with unique ids, a fresh copy of it |
| Auction.AuctionAgent.RebuildPlan | auction/src/agent/AuctionAgent.java:157-173 | the two loops build exactly the rebound plan |
| Auction.AuctionAgent.RebuildRoutes | auction/src/agent/AuctionAgent.java:162-170 | the vehicle loop gives every listed vehicle its rebound route |
| Auction.AuctionAgent.RebuildIndex | auction/src/agent/AuctionAgent.java:171-173 | the entry loop gives exactly the rebound index |
| Auction.AuctionAgent.TaskMap | auction/src/agent/AuctionAgent.java:158-161 | the loop builds taskMap, a later task replacing an earlier one with the same id |
| Auction.AuctionAgent.RebuildRoute | auction/src/agent/AuctionAgent.java:163-168 | each step copied in order with its task looked up by id |
| Auction.AuctionAgent.SLS | auction/src/agent/AuctionAgent.java:225-248 | after any number of rounds newPlan carries exactly the listed tasks and newCost is its cost; of the plans met, the start and one per round, every one carries the listed tasks, newPlan is the first with the least cost and none costs less than newCost |
| Auction.AuctionAgent.Rounds | auction/src/agent/AuctionAgent.java:233-245 | the do-while loop: one plan met per round after the start, all carrying the listed tasks, and bestA the first of them with the least cost |
| Auction.AuctionAgent.Keep | auction/src/agent/AuctionAgent.java:238-242 | `if (costA < costBestA)`: the plan just met becomes the best exactly when it is strictly cheaper, so the best stays the first cheapest of the plans met |
| Auction.FirstCheapestStep | auction/src/agent/AuctionAgentOpt.java:308-312 | one more plan met: a strictly cheaper plan becomes the first cheapest, an equal or dearer one leaves the best as it was |
| Auction.AuctionAgent.Round | auction/src/agent/AuctionAgent.java:233-236 | one round keeps the current plan and every plan in the neighbour set carrying the listed tasks |
| Auction.AuctionAgent.ChooseNeighbors | auction/src/agent/AuctionAgent.java:283-319 | the drawn vehicle is busy, and the neighbours found are appended to the set, every plan in it still carrying the listed tasks |
| Auction.AuctionAgent.LocalChoice | auction/src/agent/AuctionAgent.java:250-281 | with no neighbour or on the losing coin oldA and the set is kept; otherwise a cheapest neighbour and the set is emptied |
| Auction.Choose | auction/src/agent/AuctionAgent.java:250-281 | oldA with no neighbour or on the losing coin, otherwise one of the neighbours costing no more than any other |
| Auction.NeighbourSet.constructor | auction/src/agent/AuctionAgent.java:226 | a new set is empty |
| Auction.FirstPlacement | auction/src/agent/AuctionAgentOpt.java:102-125 | null exactly when no vehicle passes the corrected test; otherwise a fresh plan holding the corrected placement, carrying the listed tasks and the new one |
| Auction.PutTask | auction/src/agent/AuctionAgent.java:106-120 | a fresh plan holding the corrected placement on v |
| Auction.SlotIn | auction/src/agent/AuctionAgent.java:110-117 | the two insertions at the drawn positions and the index entry, then the capacity recomputation, whose verdict is returned |
| Auction.CurrentNeighbours | auction/src/agent/AuctionAgent.java:283-319 | the drawn vehicle is busy, the plans found are exactly the neighbours of the specification, and each carries the listed tasks |
| DeliberativeStates.WeightRemove | deliberative/src/model/State.java:66 | the weight on board does not depend on the order tasks are counted in |
| DeliberativeStates.Root | deliberative/src/agents/DeliberativeAgent.java:81 | the root state (every task waiting, nothing on board, nothing spent, the whole capacity free) is sound |
| DeliberativeStates.PickUp | deliberative/src/model/State.java:58-79 | refused exactly when the free room is below the weight; otherwise t is on board, no longer waiting, and the vehicle stands in t's pickup city |
| DeliberativeStates.Deliver | deliberative/src/model/State.java:81-93 | t is no longer on board, the waiting tasks are unchanged, and the vehicle stands in t's delivery city |
| DeliberativeStates.PickUpConserves | deliberative/src/model/State.java:58-79 | a pickup keeps free room plus load and the set of tasks held, and never lowers the cost |
| DeliberativeStates.DeliverConserves | deliberative/src/model/State.java:81-93 | a delivery keeps free room plus load, removes only t from the tasks held, and never lowers the cost |
| DeliberativeStates.StepsKeepSound | deliberative/src/model/State.java:58-93 | both operations keep a state sound: tasks waiting, on board or delivered, free room equal to capacity less load and never negative, cost never negative |
| DeliberativeStates.DeliverUndoesPickUp | deliberative/src/model/State.java:58-93 | delivering right after picking up restores load and free room, with t no longer waiting |
| DeliberativeStates.State.constructor | deliberative/src/model/State.java:21-30 | the values given are stored, the parent argument is dropped and the flag starts false |
| DeliberativeStates.State.Clone | deliberative/src/model/State.java:52-56 | a fresh state with the same values, no parent and the flag false |
| DeliberativeStates.State.PickUpTask | deliberative/src/model/State.java:58-79 | succeeds exactly when PickUp does, then holds its result and sets the flag; otherwise nothing changes |
| DeliberativeStates.State.DeliverTask | deliberative/src/model/State.java:81-93 | always succeeds, holds the result of Deliver and clears the flag |
| DeliberativeStates.State.SetParentState | deliberative/src/model/State.java:95-97 | links the state to p, keeping the parent chain acyclic, and changes no value |
| DeliberativeStates.LineageLength | deliberative/src/model/State.java:148-154 | a state has one lineage entry per state on its chain, exactly one when it has no parent |
| DeliberativeStates.EqualsIsLineage | deliberative/src/model/State.java:119-166 | equals holds exactly when the two states and their parent chains hold the same values step by step |
| DeliberativeSearch.TracedSound | deliberative/src/agents/DeliberativeAgent.java:94-127 | every state reached from the root by pickups and deliveries is sound |
| DeliberativeSearch.SuccessorsAppend | deliberative/src/agents/DeliberativeAgent.java:99-102 | queueing one more successor cheaper than the best keeps the list of successors |
| DeliberativeSearch.LeastExists | deliberative/src/agents/DeliberativeAgent.java:95 | a non-empty task set has a task of least id, where its iteration starts |
| DeliberativeSearch.TryPickUps | deliberative/src/agents/DeliberativeAgent.java:95-105 | at most one successor per waiting task, each a one-move successor cheaper than the best; and every waiting task whose pickup fits and stays cheaper than the best has a queued clone that picked it up |
| DeliberativeSearch.PickUpTurn | deliberative/src/agents/DeliberativeAgent.java:96-104 | one turn of the pickup loop keeps what the loop maintains with t tried too, and queues at most one state |
| DeliberativeSearch.PickedUpAppend | deliberative/src/agents/DeliberativeAgent.java:99-101 | queueing the clone that picked up t leaves t tried and keeps every earlier task tried |
| DeliberativeSearch.MovesShrink | deliberative/src/agents/DeliberativeAgent.java:95-127 | each move leaves one move less to make, and a pickup never reaches a final state |
| DeliberativeSearch.PickUpClone | deliberative/src/agents/DeliberativeAgent.java:96-103 | succeeds exactly when the pickup fits, and a cheaper clone is a successor of current |
| DeliberativeSearch.Adopt | deliberative/src/agents/DeliberativeAgent.java:100 | the clone is linked below current and stays reached from the root, its values unchanged |
| DeliberativeSearch.TryDeliveries | deliberative/src/agents/DeliberativeAgent.java:107-127 | the best final state never gets dearer and is either unchanged or a recorded child of current; no delivery is left out: the best is no dearer than any final delivery from current, and every delivery that is not final and cheaper than the best is queued; at most one queued successor per task on board |
| DeliberativeSearch.DeliveryTurn | deliberative/src/agents/DeliberativeAgent.java:108-125 | one turn of the delivery loop keeps what the loop maintains with t tried too, and queues at most one state |
| DeliberativeSearch.RecordKeepsDelivering | deliberative/src/agents/DeliberativeAgent.java:113-120 | recording a cheaper final child keeps what the delivery loop maintains |
| DeliberativeSearch.QueueKeepsDelivering | deliberative/src/agents/DeliberativeAgent.java:121-123 | queueing a non-final child keeps what the delivery loop maintains |
| DeliberativeSearch.DeliverClone | deliberative/src/agents/DeliberativeAgent.java:108-112 | the delivery always succeeds, the clone holds its result, and a cheaper clone is reached from the root |
| DeliberativeSearch.BoundPositive | deliberative/src/agents/DeliberativeAgent.java:88-91 | every queued state weighs at least one in the termination measure |
| DeliberativeSearch.PotentialConcat | deliberative/src/agents/DeliberativeAgent.java:101 | the measure of a queue is the sum over its parts |
| DeliberativeSearch.PotentialRepeat | deliberative/src/agents/DeliberativeAgent.java:101 | c successors of equal measure weigh c times one of them |
| DeliberativeSearch.PotentialDrops | deliberative/src/agents/DeliberativeAgent.java:90-127 | replacing the head of the queue by at most n successors one move further strictly lowers the measure |
| DeliberativeSearch.HeldAtMost | deliberative/src/agents/DeliberativeAgent.java:95-107 | a sound state holds no more tasks than there are, so an expansion queues at most that many |
| DeliberativeSearch.QueueOkConcat | deliberative/src/agents/DeliberativeAgent.java:101 | appending queued states keeps the queue invariant |
| DeliberativeSearch.QueueOkTail | deliberative/src/agents/DeliberativeAgent.java:90-91 | removing the head keeps the queue invariant |
| DeliberativeSearch.SuccessorsQueue | deliberative/src/agents/DeliberativeAgent.java:101-122 | successors of current enter the queue one move further than current |
| DeliberativeSearch.SuccessorsConcat | deliberative/src/agents/DeliberativeAgent.java:95-127 | the pickup and delivery successors together are successors of current |
| DeliberativeSearch.TriesConcat | deliberative/src/agents/DeliberativeAgent.java:95-127 | the tasks tried by the pickup loop and by the delivery loop stay tried in the joint list of successors |
| DeliberativeSearch.Expand | deliberative/src/agents/DeliberativeAgent.java:90-127 | one expansion queues at most one successor per task, each cheaper than the placeholder, and records nothing or a final state reached from the root; every pickup that fits is queued, and every delivery is either queued, recorded, or no cheaper than the final state recorded |
| DeliberativeSearch.BFS | deliberative/src/agents/DeliberativeAgent.java:78-128 | the loop ends; the answer is the placeholder or a final state reached from the root with the whole capacity free; with no task the placeholder; with some task, every task light enough for the vehicle and every leg cheaper than MaxCost / (2 \|tasks\|), a final state is found |
| DeliberativeSearch.Visit | deliberative/src/agents/DeliberativeAgent.java:88-127 | one turn of the search loop keeps the queue invariant, records nothing or a final state reached from the root, lowers the termination measure, and keeps a state queued until a final state is recorded when the search can be solved |
| DeliberativeSearch.StepAffordable | deliberative/src/agents/DeliberativeAgent.java:95-112 | a pickup or delivery along a leg cheaper than MaxCost / (2n) keeps a state within its share of MaxCost, and below MaxCost |
| DeliberativeSearch.TracedAffordable | deliberative/src/agents/DeliberativeAgent.java:94-127 | every state reached from the root along such legs costs at most its share of MaxCost, by the number of moves made |
| DeliberativeSearch.Progress | deliberative/src/agents/DeliberativeAgent.java:95-127 | when every task fits and every leg is cheap enough, an expansion with every move tried queues a successor or records a final state |
| RabbitsSpace.Spot | rabbits/oberle-andersen-in/src/RabbitsGrassSimulationSpace.java:32-33 | the cell drawn from two random numbers lies inside the grid |
| RabbitsSpace.Heading | rabbits/oberle-andersen-in/src/RabbitsGrassSimulationAgent.java:38-39 | a heading component is -1, 0 or 1 |
| RabbitsSpace.HeadingReaches | rabbits/oberle-andersen-in/src/RabbitsGrassSimulationAgent.java:38-39 | each of -1, 0 and 1 is drawn by some random number |
| RabbitsSpace.FirstMove | rabbits/oberle-andersen-in/src/RabbitsGrassSimulationAgent.java:34-41 | the loop of setVxVy keeps the first pair of draws that is not (0, 0), and every pair before it is (0, 0) |
| RabbitsSpace.Wrap | rabbits/oberle-andersen-in/src/RabbitsGrassSimulationAgent.java:89-90 | a coordinate moved by one wraps around the torus into the grid: -1 to the last cell, size to 0, otherwise unchanged |
| RabbitsSpace.Trunc | rabbits/oberle-andersen-in/src/RabbitsGrassSimulationAgent.java:29 | the cast of a double to an int rounds toward zero |
| RabbitsSpace.Scale | rabbits/oberle-andersen-in/src/RabbitsGrassSimulationSpace.java:32-33 | a random number times a positive size lies in [0, size) |
| RabbitsSpace.LifespanRange | rabbits/oberle-andersen-in/src/RabbitsGrassSimulationAgent.java:29 | a new rabbit lives at least min and fewer than max steps when min < max, exactly min when they are equal |
| RabbitsSpace.Space.constructor | rabbits/oberle-andersen-in/src/RabbitsGrassSimulationSpace.java:17-25 | two fresh grids of the given size, no grass and no rabbit anywhere |
| RabbitsSpace.Space.PlantGrass | rabbits/oberle-andersen-in/src/RabbitsGrassSimulationSpace.java:27-40 | a cell has grass afterwards exactly when it had grass before or one of the draws named it; no other cell changes |
| RabbitsSpace.Space.PlantedStep | rabbits/oberle-andersen-in/src/RabbitsGrassSimulationSpace.java:29-39 | one more draw plants one more cell |
| RabbitsSpace.Space.AddAgent | rabbits/oberle-andersen-in/src/RabbitsGrassSimulationSpace.java:59-77 | placed exactly when one of the 10 * X * Y tries names a free cell; then the rabbit stands on the first free cell drawn and only that cell changes; otherwise nothing changes |
| RabbitsSpace.Space.RemoveAgentAt | rabbits/oberle-andersen-in/src/RabbitsGrassSimulationSpace.java:79-81 | the cell is empty and no other cell changes |
| RabbitsSpace.Space.EatGrass | rabbits/oberle-andersen-in/src/RabbitsGrassSimulationSpace.java:83-87 | whether the cell had grass; it has none after, and no other cell changes |
| RabbitsSpace.Space.MoveAgentAt | rabbits/oberle-andersen-in/src/RabbitsGrassSimulationSpace.java:89-99 | succeeds exactly when the target is free; then the rabbit leaves its cell for the target and takes its coordinates; otherwise nothing changes |
| RabbitsSpace.Space.GetAllGrass | rabbits/oberle-andersen-in/src/RabbitsGrassSimulationSpace.java:109-117 | the number of cells with grass, at most the number of cells |
| RabbitsSpace.Space.GrassyStep | rabbits/oberle-andersen-in/src/RabbitsGrassSimulationSpace.java:112-114 | looking at one more cell adds it to the count when it has grass |
| RabbitsSpace.Space.GrassyRow | rabbits/oberle-andersen-in/src/RabbitsGrassSimulationSpace.java:111-115 | the end of a row is the start of the next |
| RabbitsSpace.Space.GrassyAll | rabbits/oberle-andersen-in/src/RabbitsGrassSimulationSpace.java:109-117 | past the last row every cell has been counted |
| RabbitsSpace.Agent.Ahead | rabbits/oberle-andersen-in/src/RabbitsGrassSimulationAgent.java:85-90 | the cell ahead lies inside the grid |
| RabbitsSpace.Agent.constructor | rabbits/oberle-andersen-in/src/RabbitsGrassSimulationAgent.java:24-32 | off the grid, no grass, the next id, a heading that moves, and a life span drawn between min and max |
| RabbitsSpace.Agent.SetVxVy | rabbits/oberle-andersen-in/src/RabbitsGrassSimulationAgent.java:34-41 | the heading of the first pair of draws that moves, nothing else changed |
| RabbitsSpace.Agent.SetXY | rabbits/oberle-andersen-in/src/RabbitsGrassSimulationAgent.java:43-46 | the new coordinates, nothing else changed |
| RabbitsSpace.Agent.ReceiveGrass | rabbits/oberle-andersen-in/src/RabbitsGrassSimulationAgent.java:107-109 | the grass grows by the amount, nothing else changed |
| RabbitsSpace.Agent.Step | rabbits/oberle-andersen-in/src/RabbitsGrassSimulationAgent.java:84-105 | a free cell ahead: the rabbit moves there and eats what grass it finds; a taken one: it stays, hands one unit to the rabbit in the way if it has any, and turns; one step of life gone either way, and only the two cells involved change |
| RabbitsModel.Survivors | rabbits/oberle-andersen-in/src/RabbitsGrassSimulationModel.java:153-165 | the rabbits still alive are a sub-list of the list |
| RabbitsModel.SurvivorsMembers | rabbits/oberle-andersen-in/src/RabbitsGrassSimulationModel.java:157 | a rabbit survives exactly when it is listed and has steps to live |
| RabbitsModel.SurvivorsAppend | rabbits/oberle-andersen-in/src/RabbitsGrassSimulationModel.java:155-163 | survivors are decided one rabbit at a time, in list order |
| RabbitsModel.SurvivorsIdempotent | rabbits/oberle-andersen-in/src/RabbitsGrassSimulationModel.java:153-165 | reaping a list with no dead rabbit changes nothing |
| RabbitsModel.SurvivorsFrom | rabbits/oberle-andersen-in/src/RabbitsGrassSimulationModel.java:155-163 | the survivors of a suffix are its first rabbit if alive, then the survivors of the rest |
| RabbitsModel.SameRabbits | rabbits/oberle-andersen-in/src/RabbitsGrassSimulationModel.java:109 | a shuffle of the list has its length and its rabbits |
| RabbitsModel.Simulation.constructor | rabbits/oberle-andersen-in/src/RabbitsGrassSimulationModel.java:90-101 | a fresh garden of the given size whose cells have grass exactly where the first `grass` spot draws land, and numAgents new rabbits without grass, the k-th with id lastId + k + 1 |
| RabbitsModel.Simulation.AddNewAgent | rabbits/oberle-andersen-in/src/RabbitsGrassSimulationModel.java:201-205 | a new rabbit goes at the end of the list, placed or not, and takes the next id |
| RabbitsModel.Simulation.ReapDeadAgents | rabbits/oberle-andersen-in/src/RabbitsGrassSimulationModel.java:153-165 | the list keeps exactly its survivors in order, the count is the number removed; a cell of the garden is emptied exactly when a dead rabbit stood on it and otherwise keeps its occupant, and a cell gets grass exactly when it is drawn for one of a dead rabbit's tufts and otherwise keeps its grass |
| RabbitsModel.Simulation.ReapAt | rabbits/oberle-andersen-in/src/RabbitsGrassSimulationModel.java:156-162 | one turn of the backward loop: the rabbit at index i is reaped exactly when it has no steps to live, and the grids stay equal to the starting grids outside the cells and tufts of the dead rabbits seen so far |
| RabbitsModel.Simulation.BuryAt | rabbits/oberle-andersen-in/src/RabbitsGrassSimulationModel.java:158-159 | burying a rabbit without steps to live empties its own cell and no other, plants grass on exactly the cells drawn for its tufts, and adds both to what the loop has done |
| RabbitsModel.Simulation.ReapAll | rabbits/oberle-andersen-in/src/RabbitsGrassSimulationModel.java:156-163 | the backward loop ends with every rabbit of the list looked at: the survivors left in order, every dead rabbit buried, and the grids changed on their cells and tufts only |
| RabbitsModel.Simulation.Unlist | rabbits/oberle-andersen-in/src/RabbitsGrassSimulationModel.java:160-161 | the rabbit leaves the list and is counted, keeping what the loop maintains |
| RabbitsModel.Simulation.Bury | rabbits/oberle-andersen-in/src/RabbitsGrassSimulationModel.java:158-159 | the dead rabbit's cell is emptied, the cells its tufts' draws name get one tuft each, and every other cell keeps its grass and its rabbit |
| RabbitsModel.Simulation.Repopulate | rabbits/oberle-andersen-in/src/RabbitsGrassSimulationModel.java:114-117 | the list keeps its length: the survivors in order, then one new rabbit per dead one |
| RabbitsModel.Simulation.StepAction | rabbits/oberle-andersen-in/src/RabbitsGrassSimulationModel.java:106-121 | every rabbit of the old list loses one step of life per place it has in the list; then the dead are replaced: the list keeps its length, the survivors of the shuffled list first, in order, then new rabbits without grass |
| RabbitsModel.Simulation.StepEvery | rabbits/oberle-andersen-in/src/RabbitsGrassSimulationModel.java:110-113 | every listed rabbit steps, losing one step of life per place in the list, and the list stays settled; each step's moves, eating and grass on the grid are stated by Agent.Step per call, not summed over the pass |
| RabbitsModel.Simulation.StepAgent | rabbits/oberle-andersen-in/src/RabbitsGrassSimulationModel.java:110-113 | the rabbit loses one step of life, no other listed rabbit does, and every listed rabbit still stands on its own cell |
| RabbitsModel.Simulation.CountLivingAgents | rabbits/oberle-andersen-in/src/RabbitsGrassSimulationModel.java:188-199 | the number of listed rabbits with steps to live |

## Left out

- Wall-clock deadlines and configuration: the `do … while` loops that run until `System.currentTimeMillis` passes a timeout run once per element of a non-empty `rounds` sequence; `Parsers.parseSettings` is not modelled.
- Randomness: every draw is a parameter (`Fraction`, `Draws`, `Round`, `Birth`, the shuffled `order` lists); no statement is made about distributions. The vehicle that the retry loop of `chooseNeighbors` settles on is chosen nondeterministically among the busy ones.
- Object identity: steps are values, so `setNextVAction`'s `==` search and the agents' `equals`-based `indexOf`/`remove` coincide on routes whose steps are distinct, which every valid route is; cloned steps cannot alias by construction, and the aliasing question is asked only of `COD`, `State` and rabbit objects, which are classes.
- Hash iteration order: the `HashSet<COD>` of neighbours, the `HashMap` of tied candidates in `localChoice` and the task sets are read in insertion order (tasks in increasing id); `COD` has no `equals`, so the set never merges two candidates, and the model keeps every candidate.
- Floating point: costs and distances are exact reals; `Double.doubleToLongBits` in `State.equals` is read as real equality. Capacities and weights are unbounded integers; 32-bit wrap-around is written out only for `VAction.hashCode`, the one place it changes a result.
- Halting paths: `System.exit` and the exceptions the Java code would raise are preconditions (`State.pickUpTask` on a task not waiting, `State.deliverTask` on a task not on board, `setNextVAction` with a null anchor, `nextInt(0)`), except the cold start giving up, which is an `ok = false` result, and the `getLast()` crash of `placeTask`, which is a `Crash` result.
- Moves.ChangingVehicle: requires t's pickup to be on v1's route; every caller passes a task the index gives to v1, so `indexOf` never returns -1 there.
- Auction.AuctionAgent.AskPrice: the bid itself (the ratio formula of `AuctionAgent`, the profit, opponent, greed and pickup-incentive terms of `AuctionAgentOpt`) and the reward and opponent bookkeeping of `auctionResult` are not modelled; only whether a bid is made and the plan it is based on.
- Auction.AuctionAgent.PlaceTask: models the corrected vehicle test and placement (see Findings); the placement as written is `AuctionPlacement.PlaceAsWritten`.
- Auction.AuctionAgent.SLS: which plan a round moves to is stated by LocalChoice (oldA, or a cheapest plan of the neighbour set) but not lifted into the list of plans met, whose entries after the start are tied to the rounds only by carrying the listed tasks; the neighbour set a round sees depends on every earlier round.
- Auction.AuctionAgent.FinalPlan: returns each vehicle's route instead of a logist `Plan`; `createMoves`, `pathTo` and the action lists are not modelled.
- DeliberativeSearch.BFS: ends at the state it returns; the action reconstruction after the loop (`intersectComplement`, `createReverseMoves`) is not modelled, nor `aStar`, which is a stub.
- DeliberativeSearch.BFS: the placeholder best state holds empty task sets and the start city where the source passes `null`; the reconstruction loop, which is not modelled, would throw a `NullPointerException` on that placeholder, as it is what the search returns when there is no task.
- DeliberativeSearch.BFS: finding a final state is proved only when every leg costs less than MaxCost / (2 |tasks|) and every task fits the vehicle; that the state found is the cheapest is not claimed, since the loop stops at the first final state recorded.
- CentralizedPlanner.Iterate: requires a task; with none the retry loop of `chooseNeighbors` never ends (see Findings), and the corrected `SLS` returns before any round.
- OldCentralizedPlanner.OldIterate: requires a task, for the same reason.
- RabbitsModel.Simulation.StepAction: requires every listed rabbit to stand on the grid; a rabbit `addAgent` failed to place has no garden, and its `step` throws.
- RabbitsModel.Simulation.StepEvery: each rabbit's move, eating and grass on the grid are proved per call by RabbitsSpace.Agent.Step; the pass over the list states only the life steps and that every rabbit stays settled, not the grid after all the steps.
- RabbitsSpace.Agent.Step: `grass += garden.eatGrass(x, y)` adds a boolean to an int, which Java does not accept; the model adds 1 when the cell had grass.
- The rabbits' static `IDNumber` counter is the `idNumber` field of the simulation, passed to each new rabbit.
- The Repast display, schedule registration, `report`, `draw`, `toString` and all logging are not modelled; neither are the reactive agents.

## Findings

| source | as written | input that shows it | evidently intended | confidence | as-written member | corrected member |
|---|---|---|---|---|---|---|
| auction/src/agent/AuctionAgentOpt.java:106-117 | `placeTask` tests free room only after the last step, then inserts the pickup and delivery at random inner positions annotated 0, without recomputing annotations | a vehicle of capacity 10 carrying a task of weight 8, a new task of weight 5, draws giving indexP = 0 and indexD = 1: the vehicle carries 13 | the new plan is capacity-feasible: annotations recomputed with `updateCapacity(v, 0)` as the neighbourhood moves do, the task put in front with `addTask` when that fails | not executed | AuctionPlacement.PlaceAsWritten, AuctionPlacement.PlaceAsWrittenOverloads | AuctionPlacement.PlaceOnVehicle, AuctionPlacement.PlaceValid |
| auction/src/agent/AuctionAgentOpt.java:103-104 | an empty vehicle too small for the task falls through to `getLast()` on its empty route, which throws | an empty vehicle of capacity 3 listed before an empty one of capacity 10, a task of weight 5 | too small a vehicle is passed over, empty or not | not executed | AuctionPlacement.FirstTaker, AuctionPlacement.EmptyWeakCrashes | AuctionPlacement.Taker, AuctionPlacement.TakerOnValid |
| auction/src/agent/AuctionAgent.java:86-92 | a lost auction removes the last listed task even when `askPrice` bid null and never appended the auctioned one | one task won, then a task no vehicle can carry, auction lost: the won task leaves the list while the committed plan still carries it | the task is removed only when it was appended | not executed | Auction.AuctionAgent.AuctionResultAsWritten, Auction.LossAfterNullBid | Auction.AuctionAgent.AuctionResult |
| auction/src/agent/AuctionAgentOpt.java:254-266 | `plan()` searches even when there is no task, and the retry loop of `chooseNeighbors` (lines 359-361) then never finds a busy vehicle | an empty task set | return one empty plan per vehicle, as `AuctionAgent.plan` does (lines 181-186) | not executed | AuctionPlacement.RetryDraw, AuctionPlacement.NoTaskNoDraw | Auction.AuctionAgent.FinalPlan, AuctionPlacement.SomeDrawEnds |
| centralized/agents/CentralizedAgent.java:176 | the source vehicle is drawn with `(int) (Math.random() * (size - 1))`, which never names the last vehicle | two vehicles, the only task on the second: the retry loop never ends | every vehicle can be drawn, as with `nextInt(size)` in the newer planner | not executed | OldCentralizedPlanner.OldDrawNeverLast, OldCentralizedPlanner.OldRetryExample | OldCentralizedPlanner.DrawFindsBusy, OldCentralizedPlanner.OldChooseNeighbors |
| centralized/src/agents/CentralizedAgent.java:58-63 | `plan()` calls `SLS()` even when there is no task, and the retry loop of `chooseNeighbors` (lines 187-189) then never finds a vehicle with a first step | an empty task set | return one empty plan per vehicle without searching, as `AuctionAgent.plan` does | not executed | CentralizedPlanner.NoTaskNoBusy | CentralizedPlanner.SLS |
| centralized/agents/CentralizedAgent.java:56-61 | `plan()` calls `SLS()` even when there is no task, and the retry loop (lines 175-177) then never finds a vehicle with a first step | an empty task set | return one empty plan per vehicle without searching | not executed | OldCentralizedPlanner.OldNoTaskNoBusy | OldCentralizedPlanner.OldSLS |
