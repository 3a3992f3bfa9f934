/** One vehicle's route: the LinkedList<VAction> of a COD, the list operations
    the planners apply to it, and COD.updateCapacity's recomputation of the
    capacity annotations. */
module Routes {
  import opened Logistics
  import opened VActions

  type Route = seq<VAction>

  // ---------------------------------------------------------------------------
  // LinkedList operations

  /** LinkedList.indexOf(new V...Action(t, 0)): the first position holding a step
      equal (same kind, same task) to the probe, or -1. */
  function IndexOf(r: Route, kind: Kind, t: Task): (k: int)
    ensures -1 <= k < |r|
    ensures k >= 0 ==> r[k].kind == kind && r[k].task == t
    ensures forall m :: 0 <= m < |r| && (k < 0 || m < k) ==> !(r[m].kind == kind && r[m].task == t)
  {
    if r == [] then -1
    else if r[0].kind == kind && r[0].task == t then 0
    else
      var k := IndexOf(r[1..], kind, t);
      if k < 0 then -1 else k + 1
  }

  /** The first position holding exactly the step a, or -1: the identity search of
      COD.setNextVAction, with object identity read as equality of step values. */
  function Find(r: Route, a: VAction): (k: int)
    ensures -1 <= k < |r|
    ensures k >= 0 ==> r[k] == a
    ensures forall m :: 0 <= m < |r| && (k < 0 || m < k) ==> r[m] != a
  {
    if r == [] then -1
    else if r[0] == a then 0
    else
      var k := Find(r[1..], a);
      if k < 0 then -1 else k + 1
  }

  /** LinkedList.remove(Object): drop the first step equal to a, if any. */
  function RemoveFirst(r: Route, a: VAction): Route
  {
    var k := IndexOf(r, a.kind, a.task);
    if k < 0 then r else r[..k] + r[k + 1..]
  }

  /** LinkedList.add(k, a). */
  function InsertAt(r: Route, k: nat, a: VAction): Route
    requires k <= |r|
  {
    r[..k] + [a] + r[k..]
  }

  /** The list edit of COD.setNextVAction(anchor, a, v): a is placed right after the
      first occurrence of anchor; nothing happens when anchor is absent. */
  function InsertAfter(r: Route, anchor: VAction, a: VAction): Route
  {
    var p := Find(r, anchor);
    if p < 0 then r else InsertAt(r, p + 1, a)
  }

  /** The search functions find the first matching position. */
  lemma IndexOfAt(r: Route, k: nat, kind: Kind, t: Task)
    requires k < |r| && r[k].kind == kind && r[k].task == t
    requires forall m :: 0 <= m < k ==> !(r[m].kind == kind && r[m].task == t)
    ensures IndexOf(r, kind, t) == k
  {
  }

  lemma FindAt(r: Route, k: nat, a: VAction)
    requires k < |r| && r[k] == a
    requires forall m :: 0 <= m < k ==> r[m] != a
    ensures Find(r, a) == k
  {
  }

  // ---------------------------------------------------------------------------
  // Capacity annotations

  /** The loop of COD.updateCapacity from position k on, where `before` is the
      annotation of the step before k: each step is recomputed from its
      predecessor, and the walk stops at the first step that reports failure. */
  function Recompute(r: Route, k: nat, before: int): (Route, bool)
    requires k <= |r|
    decreases |r| - k
  {
    if k == |r| then (r, true)
    else
      var (a, ok) := UpdateCapacity(r[k], before);
      if !ok then (r[k := a], false) else Recompute(r[k := a], k + 1, a.remaining)
  }

  /** COD.updateCapacity(v, start) on v's route, v having capacity cap. An empty
      route is left alone. From start > 0 the walk starts from the annotation
      before start; from 0 the first step is reset from cap and its own result is
      discarded. */
  function Propagate(r: Route, start: nat, cap: int): (Route, bool)
    requires r != [] ==> start < |r|
  {
    if r == [] then (r, true)
    else if start > 0 then Recompute(r, start, r[start - 1].remaining)
    else
      var (a, _) := UpdateCapacity(r[0], cap);
      Recompute(r[0 := a], 1, a.remaining)
  }

  /** Two routes with the same steps in the same order, annotations aside. */
  predicate SameKeys(r: Route, s: Route)
  {
    |r| == |s| && forall m :: 0 <= m < |r| ==> SameKey(r[m], s[m])
  }

  /** The load the vehicle carries right after step m. */
  function Carried(r: Route, m: nat): int
    requires m < |r|
  {
    Load(r[..m + 1])
  }

  /** The load picked up by steps k through m. */
  function CarriedSince(r: Route, k: nat, m: nat): int
    requires k <= m < |r|
  {
    Load(r[k..m + 1])
  }

  /** Every annotation is the free capacity after its step: the capacity minus the
      load carried at that point. */
  predicate Consistent(r: Route, cap: int)
  {
    forall m :: 0 <= m < |r| ==> r[m].remaining == cap - Carried(r, m)
  }

  /** Every annotation is non-negative. */
  predicate Feasible(r: Route)
  {
    forall m :: 0 <= m < |r| ==> r[m].remaining >= 0
  }

  /** At no point along the route does the carried load exceed the capacity. */
  predicate LoadFits(r: Route, cap: int)
  {
    forall m :: 0 <= m < |r| ==> Carried(r, m) <= cap
  }

  /** Every task of the route is, on its own, light enough for the vehicle. */
  predicate Fits(r: Route, cap: int)
  {
    forall m :: 0 <= m < |r| ==> r[m].task.weight <= cap
  }

  lemma LoadCons(a: VAction, s: Route)
    ensures Load([a] + s) == Delta(a) + Load(s)
  {
    assert ([a] + s)[0] == a && ([a] + s)[1..] == s;
  }

  lemma LoadSingle(a: VAction)
    ensures Load([a]) == Delta(a)
  {
    LoadCons(a, []);
    assert [a] + [] == [a];
  }

  /** Routes with the same steps carry the same loads. */
  lemma CarriedSameKeys(r: Route, s: Route)
    requires SameKeys(r, s)
    ensures forall m :: 0 <= m < |r| ==> Carried(r, m) == Carried(s, m)
  {
    forall m | 0 <= m < |r| ensures Carried(r, m) == Carried(s, m) {
      LoadSameKeys(r[..m + 1], s[..m + 1]);
    }
  }

  /** What the walk from k computes: the recomputed annotations are `before` minus
      the load picked up since k, the walk succeeds exactly when no pickup drives
      that below zero, and a failure leaves every later step as it was. */
  lemma {:induction false} RecomputeSpec(r: Route, k: nat, before: int)
    requires k <= |r|
    ensures var (s, ok) := Recompute(r, k, before);
      && SameKeys(r, s) && s[..k] == r[..k]
      && (ok <==> forall m :: k <= m < |r| && r[m].kind == Pickup ==> before - CarriedSince(r, k, m) >= 0)
      && (ok ==> forall m :: k <= m < |r| ==> s[m].remaining == before - CarriedSince(r, k, m))
      && (!ok ==> exists m :: k <= m < |r| && r[m].kind == Pickup
                             && s[m].remaining == before - CarriedSince(r, k, m) < 0
                             && s[m + 1..] == r[m + 1..])
    decreases |r| - k
  {
    if k < |r| {
      var (a, ok) := UpdateCapacity(r[k], before);
      var r1 := r[k := a];
      assert r[k..k + 1] == [r[k]];
      LoadSingle(r[k]);
      if ok {
        RecomputeSpec(r1, k + 1, a.remaining);
        forall m | k + 1 <= m < |r|
          ensures CarriedSince(r, k, m) == Delta(r[k]) + CarriedSince(r1, k + 1, m)
        {
          assert r[k..m + 1] == [r[k]] + r1[k + 1..m + 1];
          LoadCons(r[k], r1[k + 1..m + 1]);
        }
        var (s, ok') := Recompute(r1, k + 1, a.remaining);
        assert Recompute(r, k, before) == (s, ok');
        if !ok' {
          var m :| k + 1 <= m < |r| && r1[m].kind == Pickup
                   && s[m].remaining == a.remaining - CarriedSince(r1, k + 1, m) < 0
                   && s[m + 1..] == r1[m + 1..];
          assert r1[m + 1..] == r[m + 1..];
        }
      } else {
        assert r1[k + 1..] == r[k + 1..];
      }
    }
  }

  /** What COD.updateCapacity(v, start) computes, given that the annotations before
      start are already right: it keeps those steps, and it succeeds exactly when
      no pickup at or after max(start, 1) overloads the vehicle, in which case the
      whole route is annotated correctly. */
  lemma PropagateSpec(r: Route, start: nat, cap: int)
    requires r != [] ==> start < |r|
    requires forall m :: 0 <= m < start && m < |r| ==> r[m].remaining == cap - Carried(r, m)
    ensures var (s, ok) := Propagate(r, start, cap);
      && SameKeys(r, s)
      && (forall m :: 0 <= m < start && m < |r| ==> s[m] == r[m])
      && (r == [] ==> s == r && ok)
      && (ok <==> forall m :: 1 <= m < |r| && start <= m && r[m].kind == Pickup ==> Carried(r, m) <= cap)
      && (ok ==> Consistent(s, cap))
  {
    if r == [] {
    } else if start > 0 {
      PropagateFromSpec(r, start, cap);
    } else {
      PropagateFromFirstSpec(r, cap);
    }
  }

  lemma PropagateFromSpec(r: Route, start: nat, cap: int)
    requires 0 < start < |r|
    requires forall m :: 0 <= m < start ==> r[m].remaining == cap - Carried(r, m)
    ensures var (s, ok) := Recompute(r, start, r[start - 1].remaining);
      && SameKeys(r, s)
      && s[..start] == r[..start]
      && (ok <==> forall m :: start <= m < |r| && r[m].kind == Pickup ==> Carried(r, m) <= cap)
      && (ok ==> Consistent(s, cap))
  {
    var before := r[start - 1].remaining;
    var (s, ok) := Recompute(r, start, before);
    RecomputeSpec(r, start, before);
    CarriedSplit(r, start);
    if ok {
      CarriedSameKeys(r, s);
      assert forall m :: 0 <= m < start ==> s[m] == s[..start][m];
    }
  }

  /** The load after step m is the load before k plus what steps k through m add. */
  lemma CarriedSplit(r: Route, k: nat)
    requires 0 < k < |r|
    ensures forall m :: k <= m < |r| ==> Carried(r, m) == Carried(r, k - 1) + CarriedSince(r, k, m)
  {
    forall m | k <= m < |r| ensures Carried(r, m) == Carried(r, k - 1) + CarriedSince(r, k, m) {
      assert r[..m + 1] == r[..k] + r[k..m + 1];
      LoadAppend(r[..k], r[k..m + 1]);
      assert r[..k] == r[..k - 1 + 1];
    }
  }

  lemma PropagateFromFirstSpec(r: Route, cap: int)
    requires r != []
    ensures var (s, ok) := Propagate(r, 0, cap);
      && SameKeys(r, s)
      && (ok <==> forall m :: 1 <= m < |r| && r[m].kind == Pickup ==> Carried(r, m) <= cap)
      && (ok ==> Consistent(s, cap))
  {
    var (a, _) := UpdateCapacity(r[0], cap);
    var r0 := r[0 := a];
    var (s, ok) := Recompute(r0, 1, a.remaining);
    assert Propagate(r, 0, cap) == (s, ok);
    RecomputeSpec(r0, 1, a.remaining);
    assert r[..1] == [r[0]];
    LoadSingle(r[0]);
    forall m | 1 <= m < |r|
      ensures a.remaining - CarriedSince(r0, 1, m) == cap - Carried(r, m)
    {
      assert r[..m + 1] == [r[0]] + r0[1..m + 1];
      LoadCons(r[0], r0[1..m + 1]);
    }
    if ok {
      CarriedSameKeys(r, s);
      forall m | 0 <= m < |r| ensures s[m].remaining == cap - Carried(s, m) {
        if m == 0 {
          assert s[0] == s[..1][0] == r0[..1][0] == a;
        }
      }
    }
  }

  /** With correct annotations, an annotation is non-negative exactly when the load
      at that point fits. */
  lemma ConsistentFeasible(r: Route, cap: int)
    requires Consistent(r, cap)
    ensures Feasible(r) <==> LoadFits(r, cap)
  {
  }

  /** The load changes by the step's weight from one position to the next. */
  lemma CarriedStep(r: Route, m: nat)
    requires 0 < m < |r|
    ensures Carried(r, m) == Carried(r, m - 1) + Delta(r[m])
  {
    assert r[..m + 1] == r[..m] + [r[m]];
    LoadAppend(r[..m], [r[m]]);
    LoadSingle(r[m]);
    assert r[..m] == r[..m - 1 + 1];
  }

  /** A walk that succeeds from start leaves a feasible route when the part before
      start was feasible and no task is heavier than the vehicle: a delivery never
      lowers the free capacity, and the discarded check on the first step cannot
      matter. */
  lemma PropagateFeasible(r: Route, start: nat, cap: nat)
    requires r != [] ==> start < |r|
    requires forall m :: 0 <= m < start && m < |r| ==> r[m].remaining == cap - Carried(r, m)
    requires forall m :: 0 <= m < start && m < |r| ==> r[m].remaining >= 0
    requires Fits(r, cap)
    requires Propagate(r, start, cap).1
    ensures Feasible(Propagate(r, start, cap).0)
    ensures LoadFits(r, cap)
  {
    PropagateSpec(r, start, cap);
    var s := Propagate(r, start, cap).0;
    if r != [] {
      LoadsFit(r, start, cap, |r| - 1);
      CarriedSameKeys(r, s);
    }
  }

  lemma {:induction false} LoadsFit(r: Route, start: nat, cap: nat, n: nat)
    requires n < |r| && start < |r|
    requires forall m :: 0 <= m < start ==> r[m].remaining == cap - Carried(r, m)
    requires forall m :: 0 <= m < start ==> r[m].remaining >= 0
    requires Fits(r, cap)
    requires forall m :: 1 <= m < |r| && start <= m && r[m].kind == Pickup ==> Carried(r, m) <= cap
    ensures forall m :: 0 <= m <= n ==> Carried(r, m) <= cap
    decreases n
  {
    if n > 0 {
      LoadsFit(r, start, cap, n - 1);
    }
    if n < start {
    } else if n == 0 {
      assert r[..1] == [r[0]];
      LoadSingle(r[0]);
    } else if r[n].kind == Delivery {
      CarriedStep(r, n);
    }
  }
}
