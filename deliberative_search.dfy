/** DeliberativeAgent.BFS: a first-in first-out search over states, from the root
    holding every task, until a state with every task delivered has been recorded
    or the queue runs dry. Successors cheaper than the best final state found so
    far are kept; final ones are recorded instead of queued. */
module DeliberativeSearch {
  import opened Logistics
  import opened DeliberativeStates

  /** Integer.MAX_VALUE: the cost of the placeholder that stands for "no final
      state yet". */
  const MaxCost: real := 2147483647.0

  /** b holds the values of a after one pickup or one delivery. */
  ghost predicate Move(a: Config, b: Config, dist: Distance, costPerKm: NonNegReal)
  {
    exists t ::
      || (t in a.available && t !in a.picked && PickUp(a, t, dist, costPerKm) == Some(b))
      || (t in a.picked && Deliver(a, t, dist, costPerKm) == b)
  }

  /** s is reached from a state holding root by following moves down its parent
      chain. */
  ghost predicate Traced(s: State, root: Config, dist: Distance, costPerKm: NonNegReal)
    requires s.Linked()
    reads s, s.ancestors
    decreases s.depth
  {
    if s.parent == null then s.Snap() == root
    else Traced(s.parent, root, dist, costPerKm) && Move(s.parent.Snap(), s.Snap(), dist, costPerKm)
  }

  /** Every state reached from the root is sound. */
  lemma {:induction false} TracedSound(s: State, T: set<Task>, here: City, cap: nat, dist: Distance, costPerKm: NonNegReal)
    requires s.Linked() && Traced(s, Root(T, here, cap), dist, costPerKm)
    ensures Sound(s.Snap(), T, cap)
    decreases s.depth
  {
    if s.parent != null {
      TracedSound(s.parent, T, here, cap, dist, costPerKm);
      var a := s.parent.Snap();
      var t :|
        || (t in a.available && t !in a.picked && PickUp(a, t, dist, costPerKm) == Some(s.Snap()))
        || (t in a.picked && Deliver(a, t, dist, costPerKm) == s.Snap());
      StepsKeepSound(a, t, dist, costPerKm, T, cap);
    }
  }

  /** What the search keeps of a queued state: it is reached from the root, it is
      cheaper than the placeholder, and only the root may be final. */
  ghost predicate Queued(s: State, root: Config, dist: Distance, costPerKm: NonNegReal)
    reads s, s.ancestors
  {
    s.Linked() && Traced(s, root, dist, costPerKm) && s.cost < MaxCost && (s.parent != null ==> !Final(s.Snap()))
  }

  /** A final state the search has recorded. */
  ghost predicate Recorded(s: State, root: Config, dist: Distance, costPerKm: NonNegReal)
    reads s, s.ancestors
  {
    s.Linked() && Traced(s, root, dist, costPerKm) && s.cost < MaxCost && Final(s.Snap())
  }

  /** How much work a state has left: two moves per waiting task, one per task on
      board. */
  ghost function Measure(c: Config): nat
  {
    2 * |c.available| + |c.picked|
  }

  /** s is a queued successor of current: one move further, with one move less
      left to make. */
  ghost predicate Successor(s: State, current: State, root: Config, dist: Distance, costPerKm: NonNegReal)
    reads s, current, current.ancestors
  {
    && s.parent == current
    && s.ancestors == {current} + current.ancestors
    && Queued(s, root, dist, costPerKm)
    && Measure(s.Snap()) + 1 == Measure(current.Snap())
  }

  /** Every state of added is a successor of current cheaper than bestCost. */
  ghost predicate Successors(added: seq<State>, current: State, bestCost: real, root: Config, dist: Distance, costPerKm: NonNegReal)
    reads (set s | s in added), current, current.ancestors
  {
    forall k :: 0 <= k < |added| ==> added[k].cost < bestCost && Successor(added[k], current, root, dist, costPerKm)
  }

  lemma SuccessorsAppend(added: seq<State>, next: State, current: State, bestCost: real, root: Config, dist: Distance, costPerKm: NonNegReal)
    requires Successors(added, current, bestCost, root, dist, costPerKm)
    requires next.cost < bestCost && Successor(next, current, root, dist, costPerKm)
    ensures Successors(added + [next], current, bestCost, root, dist, costPerKm)
  {
  }

  /** A non-empty task set has a task of least id: TaskSet iterates in increasing
      id order. */
  lemma {:induction false} LeastExists(s: set<Task>)
    requires s != {}
    ensures exists t :: t in s && forall u :: u in s ==> t.id <= u.id
    decreases |s|
  {
    var x :| x in s;
    if s != {x} {
      LeastExists(s - {x});
      var y :| y in s - {x} && forall u :: u in s - {x} ==> y.id <= u.id;
      if x.id < y.id {
        assert forall u :: u in s ==> x.id <= u.id;
      } else {
        assert forall u :: u in s ==> y.id <= u.id;
      }
    } else {
      assert forall u :: u in s ==> x.id <= u.id;
    }
  }

  /** The values held by the states of added, in order. */
  ghost function Snaps(added: seq<State>): (r: seq<Config>)
    reads (set s | s in added)
    ensures |r| == |added|
  {
    if added == [] then [] else Snaps(added[..|added| - 1]) + [added[|added| - 1].Snap()]
  }

  lemma {:induction false} SnapsConcat(a: seq<State>, b: seq<State>)
    ensures Snaps(a + b) == Snaps(a) + Snaps(b)
    decreases |b|
  {
    if b == [] {
      assert a + b == a;
    } else {
      assert (a + b)[..|a + b| - 1] == a + b[..|b| - 1];
      SnapsConcat(a, b[..|b| - 1]);
    }
  }

  /** Some state of added holds the values c. */
  ghost predicate Holds(added: seq<State>, c: Config)
    reads (set s | s in added)
  {
    c in Snaps(added)
  }

  lemma HoldsConcat(a: seq<State>, b: seq<State>, c: Config)
    requires Holds(a, c) || Holds(b, c)
    ensures Holds(a + b, c)
  {
    SnapsConcat(a, b);
  }

  /** Every task of done that current can pick up for less than bestCost has a
      clone in added that picked it up. */
  ghost predicate PickedUpAll(added: seq<State>, current: State, done: set<Task>, bestCost: real, dist: Distance, costPerKm: NonNegReal)
    reads (set s | s in added), current
  {
    forall t :: t in done && t in current.available && t !in current.picked ==>
      var r := PickUp(current.Snap(), t, dist, costPerKm);
      r.Some? && r.value.cost < bestCost ==> Holds(added, r.value)
  }

  /** A turn of the pickup loop that queues the clone that picked up t keeps
      PickedUpAll, t included. */
  lemma PickedUpAppend(added: seq<State>, next: State, current: State, done: set<Task>, t: Task,
                       bestCost: real, dist: Distance, costPerKm: NonNegReal)
    requires PickedUpAll(added, current, done, bestCost, dist, costPerKm)
    requires t in current.available && t !in current.picked
    requires PickUp(current.Snap(), t, dist, costPerKm) == Some(next.Snap())
    ensures PickedUpAll(added + [next], current, done + {t}, bestCost, dist, costPerKm)
  {
    forall u | u in done + {t} && u in current.available && u !in current.picked
      ensures var r := PickUp(current.Snap(), u, dist, costPerKm);
        r.Some? && r.value.cost < bestCost ==> Holds(added + [next], r.value)
    {
      var r := PickUp(current.Snap(), u, dist, costPerKm);
      if r.Some? && r.value.cost < bestCost {
        HoldsConcat(added, [next], r.value);
      }
    }
  }

  /** A turn of the pickup loop whose clone could not pick up t, or not for less
      than bestCost, keeps PickedUpAll, t included. */
  lemma PickedUpSkip(added: seq<State>, current: State, done: set<Task>, t: Task,
                     bestCost: real, dist: Distance, costPerKm: NonNegReal)
    requires PickedUpAll(added, current, done, bestCost, dist, costPerKm)
    requires t in current.available && t !in current.picked
    requires PickUp(current.Snap(), t, dist, costPerKm).None? || PickUp(current.Snap(), t, dist, costPerKm).value.cost >= bestCost
    ensures PickedUpAll(added, current, done + {t}, bestCost, dist, costPerKm)
  {
  }

  /** The first loop of an expansion: try pickUpTask on a clone for every waiting
      task, and queue each clone that picked up and is cheaper than bestCost. No
      waiting task whose pickup fits and stays cheaper than bestCost is left out. */
  method TryPickUps(current: State, bestCost: real, ghost root: Config, dist: Distance, costPerKm: NonNegReal)
    returns (added: seq<State>)
    requires Queued(current, root, dist, costPerKm) && current.available !! current.picked
    requires bestCost <= MaxCost
    ensures |added| <= |current.available|
    ensures Picking(current, added, current.available, bestCost, root, dist, costPerKm)
  {
    added := [];
    var rest := current.available;
    ghost var done: set<Task> := {};
    while rest != {}
      invariant rest <= current.available && done + rest == current.available
      invariant |added| + |rest| <= |current.available|
      invariant Picking(current, added, done, bestCost, root, dist, costPerKm)
    {
      LeastExists(rest);
      var t :| t in rest && forall u :: u in rest ==> t.id <= u.id;
      added := PickUpTurn(current, t, added, done, bestCost, root, dist, costPerKm);
      done := done + {t};
      rest := rest - {t};
    }
  }

  /** What the pickup loop keeps: current is a queued state, and added holds
      queued successors of current cheaper than bestCost, one for every task of
      done that could be picked up for less. */
  ghost predicate Picking(current: State, added: seq<State>, done: set<Task>, bestCost: real,
                          root: Config, dist: Distance, costPerKm: NonNegReal)
    reads current, current.ancestors, (set s | s in added)
  {
    && Queued(current, root, dist, costPerKm) && current.available !! current.picked
    && bestCost <= MaxCost
    && Successors(added, current, bestCost, root, dist, costPerKm)
    && PickedUpAll(added, current, done, bestCost, dist, costPerKm)
  }

  /** The body of the pickup loop, for task t. */
  method PickUpTurn(current: State, t: Task, added: seq<State>, ghost done: set<Task>, bestCost: real,
                    ghost root: Config, dist: Distance, costPerKm: NonNegReal)
    returns (added1: seq<State>)
    requires Picking(current, added, done, bestCost, root, dist, costPerKm) && t in current.available
    ensures Picking(current, added1, done + {t}, bestCost, root, dist, costPerKm)
    ensures |added1| <= |added| + 1
  {
    var next, ok := PickUpClone(current, t, bestCost, root, dist, costPerKm);
    if ok && next.cost < bestCost {
      SuccessorsAppend(added, next, current, bestCost, root, dist, costPerKm);
      PickedUpAppend(added, next, current, done, t, bestCost, dist, costPerKm);
      added1 := added + [next];
    } else {
      PickedUpSkip(added, current, done, t, bestCost, dist, costPerKm);
      added1 := added;
    }
  }

  /** Every move leaves one move less to make, and a pickup never reaches a final
      state. */
  lemma MovesShrink(c: Config, t: Task, dist: Distance, costPerKm: NonNegReal)
    requires c.available !! c.picked
    ensures t in c.available && PickUp(c, t, dist, costPerKm).Some? ==>
      Measure(PickUp(c, t, dist, costPerKm).value) + 1 == Measure(c) && !Final(PickUp(c, t, dist, costPerKm).value)
    ensures t in c.picked ==> Measure(Deliver(c, t, dist, costPerKm)) + 1 == Measure(c)
  {
    if t in c.available {
      assert c.available == (c.available - {t}) + {t};
    }
    if t in c.picked {
      assert c.picked == (c.picked - {t}) + {t};
    }
  }

  /** One turn of the pickup loop: newNeighbor = current.clone(), pickUpTask(t),
      and setParentState(current) when the clone picked up and is cheaper than
      bestCost. */
  method PickUpClone(current: State, t: Task, bestCost: real, ghost root: Config, dist: Distance, costPerKm: NonNegReal)
    returns (next: State, ok: bool)
    requires Queued(current, root, dist, costPerKm) && current.available !! current.picked
    requires t in current.available && bestCost <= MaxCost
    ensures ok <==> PickUp(current.Snap(), t, dist, costPerKm).Some?
    ensures ok ==> next.Snap() == PickUp(current.Snap(), t, dist, costPerKm).value
    ensures ok && next.cost < bestCost ==> Successor(next, current, root, dist, costPerKm)
  {
    next := current.Clone();
    ok := next.PickUpTask(t, dist, costPerKm);
    if ok {
      if next.cost < bestCost {
        MovesShrink(current.Snap(), t, dist, costPerKm);
        Adopt(next, current, t, root, dist, costPerKm);
      }
    }
  }

  /** setParentState(current) on a clone that has made one move from current. */
  method Adopt(next: State, current: State, t: Task, ghost root: Config, dist: Distance, costPerKm: NonNegReal)
    requires Queued(current, root, dist, costPerKm)
    requires next.parent == null && next.Linked() && next != current && next !in current.ancestors
    requires || (t in current.available && t !in current.picked && PickUp(current.Snap(), t, dist, costPerKm) == Some(next.Snap()))
             || (t in current.picked && Deliver(current.Snap(), t, dist, costPerKm) == next.Snap())
    modifies next
    ensures next.Snap() == old(next.Snap()) && next.parent == current
    ensures next.Linked() && Traced(next, root, dist, costPerKm) && next.ancestors == {current} + current.ancestors
  {
    next.SetParentState(current);
  }

  /** For every task of done on board of current: a final delivery costs no less
      than newBest, and a delivery that is not final and costs less than newBest
      has a clone in added that made it. */
  ghost predicate DeliveredAll(added: seq<State>, current: State, done: set<Task>, newBest: State,
                               dist: Distance, costPerKm: NonNegReal)
    reads (set s | s in added), current, newBest
  {
    forall t :: t in done && t in current.picked ==>
      var d := Deliver(current.Snap(), t, dist, costPerKm);
      && (Final(d) ==> newBest.cost <= d.cost)
      && (!Final(d) && d.cost < newBest.cost ==> Holds(added, d))
  }

  /** The second loop of an expansion: try deliverTask on a clone for every task
      on board; a clone cheaper than the best final state is recorded as the new
      best when it is final, and queued otherwise. No delivery is left out: the
      best is no dearer than any final delivery, and every other delivery cheaper
      than the best is queued. */
  method TryDeliveries(current: State, best: State, ghost root: Config, dist: Distance, costPerKm: NonNegReal)
    returns (added: seq<State>, newBest: State)
    requires Queued(current, root, dist, costPerKm) && current.available !! current.picked
    requires best.cost <= MaxCost
    ensures Delivering(current, best, newBest, added, current.picked, root, dist, costPerKm)
    ensures current.picked == {} ==> newBest == best
    ensures |added| <= |current.picked|
  {
    added := [];
    newBest := best;
    var rest := current.picked;
    ghost var done: set<Task> := {};
    StartDelivering(current, best, root, dist, costPerKm);
    while rest != {}
      invariant rest <= current.picked && done + rest == current.picked
      invariant |added| + |rest| <= |current.picked|
      invariant current.picked == {} ==> newBest == best
      invariant Delivering(current, best, newBest, added, done, root, dist, costPerKm)
    {
      LeastExists(rest);
      var t :| t in rest && forall u :: u in rest ==> t.id <= u.id;
      added, newBest := DeliveryTurn(current, t, best, newBest, added, done, root, dist, costPerKm);
      done := done + {t};
      rest := rest - {t};
    }
    assert done == current.picked;
  }

  /** What the delivery loop keeps: current is a queued state, newBest is best or
      a cheaper final state recorded from current, added holds queued successors
      of current cheaper than best, and every task of done was tried. */
  ghost predicate Delivering(current: State, best: State, newBest: State, added: seq<State>, done: set<Task>,
                             root: Config, dist: Distance, costPerKm: NonNegReal)
    reads current, current.ancestors, best, newBest, newBest.ancestors, (set s | s in added)
  {
    && Queued(current, root, dist, costPerKm) && current.available !! current.picked
    && best.cost <= MaxCost
    && newBest.cost <= best.cost
    && (newBest == best || (newBest.cost < best.cost && Recorded(newBest, root, dist, costPerKm) && newBest.parent == current))
    && Successors(added, current, best.cost, root, dist, costPerKm)
    && DeliveredAll(added, current, done, newBest, dist, costPerKm)
  }

  /** The body of the delivery loop, for task t. */
  method DeliveryTurn(current: State, t: Task, best: State, newBest: State, added: seq<State>, ghost done: set<Task>,
                      ghost root: Config, dist: Distance, costPerKm: NonNegReal)
    returns (added1: seq<State>, newBest1: State)
    requires Delivering(current, best, newBest, added, done, root, dist, costPerKm) && t in current.picked
    ensures Delivering(current, best, newBest1, added1, done + {t}, root, dist, costPerKm)
    ensures |added1| <= |added| + 1
  {
    added1, newBest1 := added, newBest;
    var next, ok := DeliverClone(current, t, newBest.cost, root, dist, costPerKm);
    if ok {
      if next.cost < newBest.cost {
        if next.available == {} && next.picked == {} {
          if next.cost < newBest.cost {
            RecordKeepsDelivering(current, best, newBest, added, done, next, t, root, dist, costPerKm);
            newBest1 := next;
          }
        } else {
          QueueKeepsDelivering(current, best, newBest, added, done, next, t, root, dist, costPerKm);
          added1 := added + [next];
        }
      } else {
        SkipKeepsDelivering(current, best, newBest, added, done, t, root, dist, costPerKm);
      }
    }
  }

  lemma StartDelivering(current: State, best: State, root: Config, dist: Distance, costPerKm: NonNegReal)
    requires Queued(current, root, dist, costPerKm) && current.available !! current.picked
    requires best.cost <= MaxCost
    ensures Delivering(current, best, best, [], {}, root, dist, costPerKm)
  {
  }

  lemma RecordKeepsDelivering(current: State, best: State, newBest: State, added: seq<State>, done: set<Task>, next: State, t: Task,
                              root: Config, dist: Distance, costPerKm: NonNegReal)
    requires Delivering(current, best, newBest, added, done, root, dist, costPerKm) && t in current.picked
    requires next.parent == current && next.Linked() && Traced(next, root, dist, costPerKm)
    requires next.Snap() == Deliver(current.Snap(), t, dist, costPerKm)
    requires next.cost < newBest.cost && Final(next.Snap())
    ensures Delivering(current, best, next, added, done + {t}, root, dist, costPerKm)
  {
  }

  lemma QueueKeepsDelivering(current: State, best: State, newBest: State, added: seq<State>, done: set<Task>, next: State, t: Task,
                             root: Config, dist: Distance, costPerKm: NonNegReal)
    requires Delivering(current, best, newBest, added, done, root, dist, costPerKm) && t in current.picked
    requires next.parent == current && next.ancestors == {current} + current.ancestors
    requires next.Linked() && Traced(next, root, dist, costPerKm)
    requires Measure(next.Snap()) + 1 == Measure(current.Snap())
    requires next.Snap() == Deliver(current.Snap(), t, dist, costPerKm)
    requires next.cost < newBest.cost && !Final(next.Snap())
    ensures Delivering(current, best, newBest, added + [next], done + {t}, root, dist, costPerKm)
  {
    SuccessorsAppend(added, next, current, best.cost, root, dist, costPerKm);
    forall u | u in done + {t} && u in current.picked
      ensures var d := Deliver(current.Snap(), u, dist, costPerKm);
        !Final(d) && d.cost < newBest.cost ==> Holds(added + [next], d)
    {
      var d := Deliver(current.Snap(), u, dist, costPerKm);
      if !Final(d) && d.cost < newBest.cost {
        HoldsConcat(added, [next], d);
      }
    }
  }

  lemma SkipKeepsDelivering(current: State, best: State, newBest: State, added: seq<State>, done: set<Task>, t: Task,
                            root: Config, dist: Distance, costPerKm: NonNegReal)
    requires Delivering(current, best, newBest, added, done, root, dist, costPerKm) && t in current.picked
    requires Deliver(current.Snap(), t, dist, costPerKm).cost >= newBest.cost
    ensures Delivering(current, best, newBest, added, done + {t}, root, dist, costPerKm)
  {
  }

  /** One turn of the delivery loop: newNeighbor = current.clone(),
      deliverTask(t), and setParentState(current) when the clone is cheaper than
      bestCost. */
  method DeliverClone(current: State, t: Task, bestCost: real, ghost root: Config, dist: Distance, costPerKm: NonNegReal)
    returns (next: State, ok: bool)
    requires Queued(current, root, dist, costPerKm) && current.available !! current.picked
    requires t in current.picked
    ensures ok
    ensures next.Snap() == Deliver(current.Snap(), t, dist, costPerKm)
    ensures next.cost < bestCost ==>
      && next.parent == current && next.ancestors == {current} + current.ancestors
      && next.Linked() && Traced(next, root, dist, costPerKm)
      && Measure(next.Snap()) + 1 == Measure(current.Snap())
  {
    next := current.Clone();
    ok := next.DeliverTask(t, dist, costPerKm);
    if next.cost < bestCost {
      MovesShrink(current.Snap(), t, dist, costPerKm);
      Adopt(next, current, t, root, dist, costPerKm);
    }
  }

  /** The bound on the number of states the search can still queue below a state
      of measure m, when every state has at most n successors. */
  ghost function Bound(m: nat, n: nat): nat
  {
    if m == 0 then 1 else 1 + n * Bound(m - 1, n)
  }

  lemma BoundPositive(m: nat, n: nat)
    ensures Bound(m, n) >= 1
  {
  }

  /** The sum of the bounds of a queue's measures. */
  ghost function Potential(ms: seq<nat>, n: nat): nat
  {
    if ms == [] then 0 else Bound(ms[0], n) + Potential(ms[1..], n)
  }

  ghost function Repeat(c: nat, x: nat): (r: seq<nat>)
    ensures |r| == c && forall k :: 0 <= k < c ==> r[k] == x
  {
    if c == 0 then [] else [x] + Repeat(c - 1, x)
  }

  lemma {:induction false} PotentialConcat(a: seq<nat>, b: seq<nat>, n: nat)
    ensures Potential(a + b, n) == Potential(a, n) + Potential(b, n)
  {
    if a != [] {
      PotentialConcat(a[1..], b, n);
      assert (a + b)[0] == a[0];
      assert (a + b)[1..] == a[1..] + b;
    } else {
      assert a + b == b;
    }
  }

  lemma {:induction false} PotentialRepeat(c: nat, x: nat, n: nat)
    ensures Potential(Repeat(c, x), n) == c * Bound(x, n)
  {
    if c > 0 {
      PotentialRepeat(c - 1, x, n);
      assert Repeat(c, x)[1..] == Repeat(c - 1, x);
    }
  }

  /** Replacing the head of the queue, of measure m >= 1, by at most n states of
      measure m - 1 lowers the potential. */
  lemma PotentialDrops(ms: seq<nat>, c: nat, n: nat)
    requires ms != [] && ms[0] >= 1 && c <= n
    ensures Potential(ms[1..] + Repeat(c, ms[0] - 1), n) < Potential(ms, n)
  {
    var b := Bound(ms[0] - 1, n);
    PotentialConcat(ms[1..], Repeat(c, ms[0] - 1), n);
    PotentialRepeat(c, ms[0] - 1, n);
    assert Potential(ms, n) == 1 + n * b + Potential(ms[1..], n);
    MulMono(c, n, b);
  }

  lemma MulMono(c: nat, n: nat, b: nat)
    requires c <= n
    ensures c * b <= n * b
  {
    assert n * b == c * b + (n - c) * b;
  }

  lemma {:induction false} SubsetSize(a: set<Task>, b: set<Task>)
    requires a <= b
    ensures |a| <= |b|
    decreases a
  {
    if a != {} {
      var x :| x in a;
      SubsetSize(a - {x}, b - {x});
    }
  }

  /** A sound state holds no more tasks, waiting or on board, than there are. */
  lemma HeldAtMost(c: Config, T: set<Task>, cap: nat)
    requires Sound(c, T, cap)
    ensures |c.available| + |c.picked| <= |T|
  {
    SubsetSize(c.available + c.picked, T);
  }

  /** Every queued state is kept by the search, and ms lists their measures. */
  ghost predicate QueueOk(queue: seq<State>, ms: seq<nat>, root: Config, dist: Distance, costPerKm: NonNegReal)
    reads (set q | q in queue), (set q, a | q in queue && a in q.ancestors :: a)
  {
    && |ms| == |queue|
    && forall k :: 0 <= k < |queue| ==> Queued(queue[k], root, dist, costPerKm) && ms[k] == Measure(queue[k].Snap())
  }

  lemma QueueOkConcat(a: seq<State>, ma: seq<nat>, b: seq<State>, mb: seq<nat>, root: Config, dist: Distance, costPerKm: NonNegReal)
    requires QueueOk(a, ma, root, dist, costPerKm) && QueueOk(b, mb, root, dist, costPerKm)
    ensures QueueOk(a + b, ma + mb, root, dist, costPerKm)
  {
    forall k | 0 <= k < |a + b|
      ensures Queued((a + b)[k], root, dist, costPerKm) && (ma + mb)[k] == Measure((a + b)[k].Snap())
    {
      if k >= |a| {
        assert (a + b)[k] == b[k - |a|];
      }
    }
  }

  lemma QueueOkTail(queue: seq<State>, ms: seq<nat>, root: Config, dist: Distance, costPerKm: NonNegReal)
    requires queue != [] && QueueOk(queue, ms, root, dist, costPerKm)
    ensures QueueOk(queue[1..], ms[1..], root, dist, costPerKm)
  {
    forall k | 0 <= k < |queue| - 1
      ensures Queued(queue[1..][k], root, dist, costPerKm) && ms[1..][k] == Measure(queue[1..][k].Snap())
    {
      assert queue[1..][k] == queue[k + 1];
    }
  }

  /** Successors of a state of measure m queue with measure m - 1 each. */
  lemma SuccessorsQueue(added: seq<State>, current: State, bestCost: real, root: Config, dist: Distance, costPerKm: NonNegReal)
    requires Successors(added, current, bestCost, root, dist, costPerKm) && added != []
    ensures Measure(current.Snap()) >= 1
    ensures QueueOk(added, Repeat(|added|, Measure(current.Snap()) - 1), root, dist, costPerKm)
  {
    assert Successor(added[0], current, root, dist, costPerKm);
  }

  lemma SuccessorsConcat(a: seq<State>, b: seq<State>, current: State, bestCost: real, cost: real, root: Config, dist: Distance, costPerKm: NonNegReal)
    requires Successors(a, current, bestCost, root, dist, costPerKm)
    requires Successors(b, current, cost, root, dist, costPerKm) && cost <= bestCost
    ensures Successors(a + b, current, bestCost, root, dist, costPerKm)
  {
    forall k | 0 <= k < |a + b|
      ensures (a + b)[k].cost < bestCost && Successor((a + b)[k], current, root, dist, costPerKm)
    {
      if k >= |a| {
        assert (a + b)[k] == b[k - |a|];
      }
    }
  }

  /** Tries recorded in a list of successors stay recorded when more successors
      are put before or after it. */
  lemma TriesConcat(added: seq<State>, delivered: seq<State>, current: State, newBest: State,
                    dist: Distance, costPerKm: NonNegReal)
    requires PickedUpAll(added, current, current.available, MaxCost, dist, costPerKm)
    requires DeliveredAll(delivered, current, current.picked, newBest, dist, costPerKm)
    ensures PickedUpAll(added + delivered, current, current.available, MaxCost, dist, costPerKm)
    ensures DeliveredAll(added + delivered, current, current.picked, newBest, dist, costPerKm)
  {
    forall t | t in current.available && t !in current.picked
      ensures var r := PickUp(current.Snap(), t, dist, costPerKm);
        r.Some? && r.value.cost < MaxCost ==> Holds(added + delivered, r.value)
    {
      var r := PickUp(current.Snap(), t, dist, costPerKm);
      if r.Some? && r.value.cost < MaxCost {
        HoldsConcat(added, delivered, r.value);
      }
    }
    forall t | t in current.picked
      ensures var d := Deliver(current.Snap(), t, dist, costPerKm);
        !Final(d) && d.cost < newBest.cost ==> Holds(added + delivered, d)
    {
      var d := Deliver(current.Snap(), t, dist, costPerKm);
      if !Final(d) && d.cost < newBest.cost {
        HoldsConcat(added, delivered, d);
      }
    }
  }

  /** One expansion of the loop body: the pickup loop, then the delivery loop, on
      a state taken from the queue while no final state is recorded. Every pickup
      that fits and every delivery is tried: each one cheaper than the placeholder
      is queued, except that a final delivery becomes the best, and a delivery
      that is not final is dropped only when it costs no less than that best. */
  method Expand(current: State, best: State, ghost T: set<Task>, ghost here: City, ghost cap: nat, dist: Distance, costPerKm: NonNegReal)
    returns (successors: seq<State>, newBest: State)
    requires Queued(current, Root(T, here, cap), dist, costPerKm) && best.cost == MaxCost
    ensures |successors| <= |T|
    ensures Successors(successors, current, MaxCost, Root(T, here, cap), dist, costPerKm)
    ensures newBest == best || Recorded(newBest, Root(T, here, cap), dist, costPerKm)
    ensures T == {} ==> newBest == best
    ensures PickedUpAll(successors, current, current.available, MaxCost, dist, costPerKm)
    ensures DeliveredAll(successors, current, current.picked, newBest, dist, costPerKm)
  {
    ghost var root := Root(T, here, cap);
    TracedSound(current, T, here, cap, dist, costPerKm);
    HeldAtMost(current.Snap(), T, cap);
    var added := TryPickUps(current, best.cost, root, dist, costPerKm);
    var delivered;
    delivered, newBest := TryDeliveries(current, best, root, dist, costPerKm);
    SuccessorsConcat(added, delivered, current, MaxCost, best.cost, root, dist, costPerKm);
    TriesConcat(added, delivered, current, newBest, dist, costPerKm);
    successors := added + delivered;
  }

  /** Every leg of the trip costs less than MaxCost / (2n): the 2n moves that
      serve n tasks never reach the placeholder's cost. */
  ghost predicate LegsBelow(dist: Distance, costPerKm: NonNegReal, n: nat)
  {
    forall a, b :: dist(a, b) * costPerKm * (2 * n) as real < MaxCost
  }

  /** The cost of c stays within the share of MaxCost of the moves made to reach
      it, 2n - Measure(c) of the 2n moves that serve n tasks. */
  ghost predicate Affordable(c: Config, n: nat)
  {
    c.cost * (2 * n) as real <= (2 * n - Measure(c)) as real * MaxCost
  }

  /** A move whose leg costs less than MaxCost / (2n) keeps a state affordable,
      and the state reached costs less than MaxCost. */
  lemma MoveAffordable(c: Config, d: Config, leg: real, n: nat)
    requires Affordable(c, n) && Measure(d) + 1 == Measure(c)
    requires d.cost == c.cost + leg && leg * (2 * n) as real < MaxCost
    ensures Affordable(d, n) && d.cost < MaxCost
  {
    Budget(c.cost, leg, (2 * n) as real, (2 * n - Measure(c)) as real);
  }

  /** The arithmetic of a move: a cost within before shares of MaxCost, plus a leg
      of less than one share, stays within before + 1 shares, and below MaxCost
      when that is at most k shares. */
  lemma Budget(cost: real, leg: real, k: real, before: real)
    requires cost * k <= before * MaxCost && leg * k < MaxCost && k >= 0.0
    ensures (cost + leg) * k < (before + 1.0) * MaxCost
    ensures before + 1.0 <= k ==> cost + leg < MaxCost
  {
    Distribute(cost, leg, k);
    Distribute(before, 1.0, MaxCost);
    if before + 1.0 <= k {
      MulLe(before + 1.0, k, MaxCost);
      if cost + leg >= MaxCost {
        MulLe(MaxCost, cost + leg, k);
      }
    }
  }

  lemma Distribute(x: real, y: real, k: real)
    ensures (x + y) * k == x * k + y * k
  {
  }

  lemma MulLe(x: real, y: real, k: real)
    requires x <= y && k >= 0.0
    ensures x * k <= y * k
  {
    assert y * k - x * k == (y - x) * k;
  }

  /** A move along the leg from one city to another, cheap enough, keeps a state
      affordable, and reaches a state that costs less than MaxCost. */
  lemma LegAffordable(a: Config, d: Config, from: City, to: City, dist: Distance, costPerKm: NonNegReal, n: nat)
    requires Affordable(a, n) && LegsBelow(dist, costPerKm, n) && Measure(d) + 1 == Measure(a)
    requires d.cost == a.cost + dist(from, to) * costPerKm
    ensures Affordable(d, n) && d.cost < MaxCost
  {
    MoveAffordable(a, d, dist(from, to) * costPerKm, n);
  }

  /** One pickup or delivery from an affordable state, along a leg cheap enough,
      reaches an affordable state that costs less than MaxCost. */
  lemma StepAffordable(a: Config, t: Task, dist: Distance, costPerKm: NonNegReal, n: nat)
    requires a.available !! a.picked && Affordable(a, n) && LegsBelow(dist, costPerKm, n)
    ensures t in a.available && PickUp(a, t, dist, costPerKm).Some? ==>
      Affordable(PickUp(a, t, dist, costPerKm).value, n) && PickUp(a, t, dist, costPerKm).value.cost < MaxCost
    ensures t in a.picked ==>
      Affordable(Deliver(a, t, dist, costPerKm), n) && Deliver(a, t, dist, costPerKm).cost < MaxCost
  {
    MovesShrink(a, t, dist, costPerKm);
    if t in a.available && PickUp(a, t, dist, costPerKm).Some? {
      LegAffordable(a, PickUp(a, t, dist, costPerKm).value, a.city, t.pickupCity, dist, costPerKm, n);
    }
    if t in a.picked {
      LegAffordable(a, Deliver(a, t, dist, costPerKm), a.city, t.deliveryCity, dist, costPerKm, n);
    }
  }

  /** Every state reached from the root by legs that cost less than MaxCost / (2n)
      is affordable. */
  lemma {:induction false} TracedAffordable(s: State, T: set<Task>, here: City, cap: nat, dist: Distance, costPerKm: NonNegReal)
    requires s.Linked() && Traced(s, Root(T, here, cap), dist, costPerKm) && LegsBelow(dist, costPerKm, |T|)
    ensures Affordable(s.Snap(), |T|)
    decreases s.depth
  {
    if s.parent != null {
      TracedAffordable(s.parent, T, here, cap, dist, costPerKm);
      TracedSound(s.parent, T, here, cap, dist, costPerKm);
      var a := s.parent.Snap();
      var t :|
        || (t in a.available && t !in a.picked && PickUp(a, t, dist, costPerKm) == Some(s.Snap()))
        || (t in a.picked && Deliver(a, t, dist, costPerKm) == s.Snap());
      StepAffordable(a, t, dist, costPerKm, |T|);
    }
  }

  /** Every task fits the empty vehicle. */
  ghost predicate AllFit(T: set<Task>, cap: nat)
  {
    forall t :: t in T ==> t.weight <= cap
  }

  /** Some task, each light enough for the vehicle, and every leg cheaper than
      MaxCost / (2 |T|). */
  ghost predicate Solvable(T: set<Task>, cap: nat, dist: Distance, costPerKm: NonNegReal)
  {
    T != {} && AllFit(T, cap) && LegsBelow(dist, costPerKm, |T|)
  }

  /** When every task fits and every leg is cheap enough, expanding a state taken
      from the queue of a search with some task either queues a successor or
      records a final state. */
  lemma Progress(current: State, successors: seq<State>, best: State, newBest: State,
                 T: set<Task>, here: City, cap: nat, dist: Distance, costPerKm: NonNegReal)
    requires Queued(current, Root(T, here, cap), dist, costPerKm)
    requires Solvable(T, cap, dist, costPerKm)
    requires best.cost == MaxCost
    requires PickedUpAll(successors, current, current.available, MaxCost, dist, costPerKm)
    requires DeliveredAll(successors, current, current.picked, newBest, dist, costPerKm)
    ensures successors != [] || newBest != best
  {
    TracedSound(current, T, here, cap, dist, costPerKm);
    TracedAffordable(current, T, here, cap, dist, costPerKm);
    var c := current.Snap();
    if c.picked != {} {
      var t :| t in c.picked;
      StepAffordable(c, t, dist, costPerKm, |T|);
      var d := Deliver(c, t, dist, costPerKm);
      if Final(d) {
        assert newBest.cost <= d.cost;
      } else if newBest == best {
        assert Holds(successors, d);
      }
    } else {
      assert c.available != {};
      var t :| t in c.available;
      assert Weight(c.picked) == 0;
      StepAffordable(c, t, dist, costPerKm, |T|);
      assert Holds(successors, PickUp(c, t, dist, costPerKm).value);
    }
  }

  /** BFS(vehicle, tasks), standing in city here, up to the action list it builds
      from the answer. The answer is either the placeholder (cost MaxCost) or a
      final state reached from the root by pickups and deliveries, with all of the
      vehicle's room free again. With no task at all the root is never recorded,
      and the placeholder comes back. With some task, every task light enough for
      the vehicle and every leg cheaper than MaxCost / (2 |tasks|), a final state
      is always found. */
  method BFS(vehicle: Vehicle, here: City, tasks: set<Task>, dist: Distance, costPerKm: NonNegReal)
    returns (best: State)
    ensures best.cost == MaxCost ||
      (Recorded(best, Root(tasks, here, vehicle.capacity), dist, costPerKm) && best.remaining == vehicle.capacity)
    ensures tasks == {} ==> best.cost == MaxCost
    ensures Solvable(tasks, vehicle.capacity, dist, costPerKm) ==> best.cost < MaxCost
  {
    ghost var root := Root(tasks, here, vehicle.capacity);
    var first := new State(tasks, {}, here, 0.0, vehicle.capacity, null);
    var queue := [first];
    best := new State({}, {}, here, MaxCost, 0, null);
    ghost var ms: seq<nat> := [Measure(root)];
    while queue != [] && best.cost == MaxCost
      invariant QueueOk(queue, ms, root, dist, costPerKm)
      invariant best.cost == MaxCost || Recorded(best, root, dist, costPerKm)
      invariant tasks == {} ==> best.cost == MaxCost
      invariant Solvable(tasks, vehicle.capacity, dist, costPerKm) ==> queue != [] || best.cost != MaxCost
      decreases Potential(ms, |tasks|)
    {
      queue, best, ms := Visit(queue, best, ms, vehicle, here, tasks, dist, costPerKm);
    }
    if best.cost != MaxCost {
      TracedSound(best, tasks, here, vehicle.capacity, dist, costPerKm);
    }
  }

  /** One turn of the search loop: take the head of the queue, expand it, and
      queue its successors at the back. The measure of the queue drops; a search
      that can be solved keeps a state queued until a final state is recorded. */
  method Visit(queue: seq<State>, best: State, ghost ms: seq<nat>, vehicle: Vehicle, here: City, tasks: set<Task>,
               dist: Distance, costPerKm: NonNegReal)
    returns (queue1: seq<State>, best1: State, ghost ms1: seq<nat>)
    requires queue != [] && best.cost == MaxCost
    requires QueueOk(queue, ms, Root(tasks, here, vehicle.capacity), dist, costPerKm)
    ensures QueueOk(queue1, ms1, Root(tasks, here, vehicle.capacity), dist, costPerKm)
    ensures best1.cost == MaxCost || Recorded(best1, Root(tasks, here, vehicle.capacity), dist, costPerKm)
    ensures tasks == {} ==> best1.cost == MaxCost
    ensures Solvable(tasks, vehicle.capacity, dist, costPerKm) ==> queue1 != [] || best1.cost != MaxCost
    ensures Potential(ms1, |tasks|) < Potential(ms, |tasks|)
  {
    ghost var root := Root(tasks, here, vehicle.capacity);
    var current := queue[0];
    QueueOkTail(queue, ms, root, dist, costPerKm);
    queue1 := queue[1..];
    ghost var m := Measure(current.Snap());
    assert ms[0] == m;
    assert Potential(ms, |tasks|) == Bound(m, |tasks|) + Potential(ms[1..], |tasks|);
    var successors;
    successors, best1 := Expand(current, best, tasks, here, vehicle.capacity, dist, costPerKm);
    if Solvable(tasks, vehicle.capacity, dist, costPerKm) {
      Progress(current, successors, best, best1, tasks, here, vehicle.capacity, dist, costPerKm);
    }
    if successors == [] {
      BoundPositive(m, |tasks|);
      ms1 := ms[1..];
    } else {
      SuccessorsQueue(successors, current, MaxCost, root, dist, costPerKm);
      PotentialDrops(ms, |successors|, |tasks|);
      QueueOkConcat(queue1, ms[1..], successors, Repeat(|successors|, ms[0] - 1), root, dist, costPerKm);
      ms1 := ms[1..] + Repeat(|successors|, ms[0] - 1);
    }
    queue1 := queue1 + successors;
  }
}
