/** The shape every route of a plan keeps: each task appears as one pickup and
    one delivery, the pickup first. The edits the planners make to a route, and
    why each keeps that shape when the planners' guards hold. */
module RouteShapes {
  import opened Logistics
  import opened VActions
  import opened Routes

  /** No two steps are equal (same kind, same task). */
  predicate Distinct(r: Route)
  {
    forall m, n :: 0 <= m < n < |r| ==> !SameKey(r[m], r[n])
  }

  /** A task's pickup comes before its delivery. */
  predicate PickupFirst(r: Route)
  {
    forall m, n ::
      0 <= m < |r| && 0 <= n < |r| && r[m].kind == Pickup && r[n].kind == Delivery && r[m].task == r[n].task
      ==> m < n
  }

  /** The tasks that have a step of kind k in the route. */
  function TasksOf(r: Route, k: Kind): set<Task>
  {
    set m | 0 <= m < |r| && r[m].kind == k :: r[m].task
  }

  /** The tasks a route serves. */
  function Tasks(r: Route): set<Task>
  {
    set m | 0 <= m < |r| :: r[m].task
  }

  /** Each task of the route is picked up once and delivered once, in that order. */
  predicate WellFormed(r: Route)
  {
    Distinct(r) && PickupFirst(r) && TasksOf(r, Pickup) == TasksOf(r, Delivery)
  }

  /** The state of one vehicle's route in a valid plan: well formed, annotated with
      the free capacity after each step, never overloaded, and holding only tasks
      the vehicle could carry on its own. */
  predicate RouteOk(r: Route, cap: int)
  {
    WellFormed(r) && Consistent(r, cap) && Feasible(r) && Fits(r, cap)
  }

  lemma TasksSplit(r: Route)
    ensures Tasks(r) == TasksOf(r, Pickup) + TasksOf(r, Delivery)
  {
    forall u | u in Tasks(r) ensures u in TasksOf(r, Pickup) + TasksOf(r, Delivery) {
      var m :| 0 <= m < |r| && r[m].task == u;
      assert r[m].kind == Pickup || r[m].kind == Delivery;
    }
  }

  /** In a well-formed route, a task's pickup and delivery are found by indexOf, the
      pickup first. */
  lemma PairPositions(r: Route, t: Task)
    requires WellFormed(r) && t in Tasks(r)
    ensures 0 <= IndexOf(r, Pickup, t) < IndexOf(r, Delivery, t)
  {
    TasksSplit(r);
    var p :| 0 <= p < |r| && r[p].kind == Pickup && r[p].task == t;
    var d :| 0 <= d < |r| && r[d].kind == Delivery && r[d].task == t;
    assert IndexOf(r, Pickup, t) >= 0 && IndexOf(r, Delivery, t) >= 0;
  }

  /** A step that occurs in a distinct route is the only one of its key. */
  lemma DistinctUnique(r: Route, m: nat, n: nat)
    requires Distinct(r) && m < |r| && n < |r| && SameKey(r[m], r[n])
    ensures m == n
  {
  }

  /** Where indexOf finds a step of a distinct route: at its own position. */
  lemma DistinctIndexOf(r: Route, k: nat)
    requires Distinct(r) && k < |r|
    ensures IndexOf(r, r[k].kind, r[k].task) == k
    ensures Find(r, r[k]) == k
  {
    forall m | 0 <= m < k ensures !(r[m].kind == r[k].kind && r[m].task == r[k].task) {
      assert !SameKey(r[m], r[k]);
    }
    IndexOfAt(r, k, r[k].kind, r[k].task);
    FindAt(r, k, r[k]);
  }

  // ---------------------------------------------------------------------------
  // Order-preserving embeddings

  /** Every step of s is, key for key, a step of r, at positions that keep their
      order. */
  predicate Embeds(s: Route, r: Route, f: nat -> nat)
  {
    && (forall m :: 0 <= m < |s| ==> f(m) < |r| && SameKey(s[m], r[f(m)]))
    && (forall m, n :: 0 <= m < n < |s| ==> f(m) < f(n))
  }

  lemma EmbedsOrdered(s: Route, r: Route, f: nat -> nat)
    requires Embeds(s, r, f) && Distinct(r) && PickupFirst(r)
    ensures Distinct(s) && PickupFirst(s)
    ensures forall k :: TasksOf(s, k) <= TasksOf(r, k)
  {
    forall m, n | 0 <= m < n < |s| ensures !SameKey(s[m], s[n]) {
      assert f(m) < f(n) && !SameKey(r[f(m)], r[f(n)]);
    }
    forall m, n | 0 <= m < |s| && 0 <= n < |s| && s[m].kind == Pickup && s[n].kind == Delivery
                  && s[m].task == s[n].task
      ensures m < n
    {
      assert r[f(m)].kind == Pickup && r[f(n)].kind == Delivery && r[f(m)].task == r[f(n)].task;
      assert f(m) < f(n);
    }
    forall k, u | u in TasksOf(s, k) ensures u in TasksOf(r, k) {
      var m :| 0 <= m < |s| && s[m].kind == k && s[m].task == u;
      assert r[f(m)].kind == k && r[f(m)].task == u;
    }
  }

  /** Re-annotating a route changes nothing about its shape. */
  lemma SameKeysShape(r: Route, s: Route)
    requires SameKeys(r, s)
    ensures WellFormed(r) ==> WellFormed(s)
    ensures Tasks(s) == Tasks(r)
    ensures forall cap :: Fits(r, cap) ==> Fits(s, cap)
  {
    var id := (m: nat) => m;
    assert Embeds(s, r, id);
    assert Embeds(r, s, id);
    if WellFormed(r) {
      EmbedsOrdered(s, r, id);
      EmbedsOrdered(r, s, id);
    }
    forall u | u in Tasks(r) ensures u in Tasks(s) {
      var m :| 0 <= m < |r| && r[m].task == u;
      assert s[m].task == u;
    }
    forall u | u in Tasks(s) ensures u in Tasks(r) {
      var m :| 0 <= m < |s| && s[m].task == u;
      assert r[m].task == u;
    }
  }

  // ---------------------------------------------------------------------------
  // Taking a task out of a route

  /** r without the steps at p and d. */
  function RemovePair(r: Route, p: nat, d: nat): Route
    requires p < d < |r|
  {
    r[..p] + r[p + 1..d] + r[d + 1..]
  }

  /** Where step m of RemovePair(r, p, d) came from. */
  function Kept(p: nat, d: nat, m: nat): nat
  {
    if m < p then m else if m + 1 < d then m + 1 else m + 2
  }

  lemma RemovePairAt(r: Route, p: nat, d: nat)
    requires p < d < |r|
    ensures |RemovePair(r, p, d)| == |r| - 2
    ensures forall m :: 0 <= m < |r| - 2 ==> Kept(p, d, m) < |r| && RemovePair(r, p, d)[m] == r[Kept(p, d, m)]
  {
  }

  /** The two removals of changingVehicle take the task's delivery, then its pickup,
      out of a well-formed route. */
  lemma RemoveStepsIsRemovePair(r: Route, t: Task)
    requires WellFormed(r) && t in Tasks(r)
    ensures var p := IndexOf(r, Pickup, t);
            var d := IndexOf(r, Delivery, t);
            0 <= p < d && RemoveFirst(RemoveFirst(r, NewDelivery(t, 0)), NewPickup(t, 0)) == RemovePair(r, p, d)
  {
    PairPositions(r, t);
    var p := IndexOf(r, Pickup, t);
    var d := IndexOf(r, Delivery, t);
    var r1 := r[..d] + r[d + 1..];
    assert RemoveFirst(r, NewDelivery(t, 0)) == r1;
    PickupSurvives(r, p, d, t);
    DropBoth(r, p, d);
  }

  /** Taking out a step after the first pickup of t leaves that pickup first. */
  lemma PickupSurvives(r: Route, p: nat, d: nat, t: Task)
    requires p < d < |r| && IndexOf(r, Pickup, t) == p
    ensures IndexOf(r[..d] + r[d + 1..], Pickup, t) == p
  {
    var r1 := r[..d] + r[d + 1..];
    assert r1[p] == r[p];
    forall m | 0 <= m < p ensures !(r1[m].kind == Pickup && r1[m].task == t) {
      assert r1[m] == r[m];
    }
    IndexOfAt(r1, p, Pickup, t);
  }

  /** Removing d and then p gives RemovePair(r, p, d). */
  lemma DropBoth(r: Route, p: nat, d: nat)
    requires p < d < |r|
    ensures var r1 := r[..d] + r[d + 1..]; r1[..p] + r1[p + 1..] == RemovePair(r, p, d)
  {
    var r1 := r[..d] + r[d + 1..];
    assert r1[..p] == r[..p];
    assert r1[p + 1..] == r[p + 1..d] + r[d + 1..];
  }

  /** Where step q of r went in RemovePair(r, p, d), for q other than p and d. */
  function Moved(p: nat, d: nat, q: nat): int
  {
    if q < p then q else if q < d then q - 1 else q - 2
  }

  lemma RemovePairKeepsRest(r: Route, p: nat, d: nat)
    requires p < d < |r|
    ensures forall q :: 0 <= q < |r| && q != p && q != d ==>
              0 <= Moved(p, d, q) < |r| - 2 && RemovePair(r, p, d)[Moved(p, d, q)] == r[q]
  {
  }

  /** Taking a task's pickup and delivery out of a well-formed route leaves a
      well-formed route serving the other tasks. */
  lemma RemovePairShape(r: Route, p: nat, d: nat)
    requires WellFormed(r) && p < d < |r|
    requires r[p].kind == Pickup && r[d].kind == Delivery && r[p].task == r[d].task
    ensures WellFormed(RemovePair(r, p, d))
    ensures Tasks(RemovePair(r, p, d)) == Tasks(r) - {r[p].task}
    ensures forall cap :: Fits(r, cap) ==> Fits(RemovePair(r, p, d), cap)
  {
    var s := RemovePair(r, p, d);
    RemovePairAt(r, p, d);
    var f := (m: nat) => Kept(p, d, m);
    assert Embeds(s, r, f);
    EmbedsOrdered(s, r, f);
    RemovePairTasksOf(r, p, d, Pickup);
    RemovePairTasksOf(r, p, d, Delivery);
    TasksSplit(r);
    TasksSplit(s);
  }

  lemma RemovePairTasksOf(r: Route, p: nat, d: nat, k: Kind)
    requires WellFormed(r) && p < d < |r|
    requires r[p].kind == Pickup && r[d].kind == Delivery && r[p].task == r[d].task
    ensures TasksOf(RemovePair(r, p, d), k) == TasksOf(r, k) - {r[p].task}
  {
    var s := RemovePair(r, p, d);
    RemovePairAt(r, p, d);
    var f := (m: nat) => Kept(p, d, m);
    assert Embeds(s, r, f);
    EmbedsOrdered(s, r, f);
    RemovePairDropsTask(r, p, d);
    RemovePairTasksKept(r, p, d, k);
    assert TasksOf(s, k) <= Tasks(s) by {
      forall u | u in TasksOf(s, k) ensures u in Tasks(s) {
        var m :| 0 <= m < |s| && s[m].kind == k && s[m].task == u;
      }
    }
  }

  lemma RemovePairTasksKept(r: Route, p: nat, d: nat, k: Kind)
    requires p < d < |r| && r[p].task == r[d].task
    ensures TasksOf(r, k) - {r[p].task} <= TasksOf(RemovePair(r, p, d), k)
  {
    var s := RemovePair(r, p, d);
    RemovePairKeepsRest(r, p, d);
    forall u | u in TasksOf(r, k) && u != r[p].task ensures u in TasksOf(s, k) {
      var q :| 0 <= q < |r| && r[q].kind == k && r[q].task == u;
      assert s[Moved(p, d, q)] == r[q];
    }
  }

  lemma RemovePairDropsTask(r: Route, p: nat, d: nat)
    requires Distinct(r) && p < d < |r|
    requires r[p].kind == Pickup && r[d].kind == Delivery && r[p].task == r[d].task
    ensures r[p].task !in Tasks(RemovePair(r, p, d))
  {
    var s := RemovePair(r, p, d);
    RemovePairAt(r, p, d);
    forall m | 0 <= m < |s| ensures s[m].task != r[p].task {
      var q := Kept(p, d, m);
      assert q != p && q != d;
      DistinctUniqueNot(r, q, p);
      DistinctUniqueNot(r, q, d);
    }
  }

  lemma DistinctUniqueNot(r: Route, m: nat, n: nat)
    requires Distinct(r) && m < |r| && n < |r| && m != n
    ensures !SameKey(r[m], r[n])
  {
  }
}
