/** The state of the single-vehicle deliberative search: which tasks are still
    waiting, which are on board, where the vehicle stands, what the trip has cost
    so far and how much room is left, with a link to the state it was expanded
    from. */
module DeliberativeStates {
  import opened Logistics

  /** Everything State.equals compares except the parent link. */
  datatype Config = Config(available: set<Task>, picked: set<Task>, city: City, cost: real, remaining: int)

  /** The total weight of a set of tasks. */
  ghost function Weight(s: set<Task>): nat
  {
    if s == {} then 0 else var t :| t in s; t.weight + Weight(s - {t})
  }

  /** Weight does not depend on the element the definition happens to take first. */
  lemma {:induction false} WeightRemove(s: set<Task>, t: Task)
    requires t in s
    ensures Weight(s) == t.weight + Weight(s - {t})
    decreases |s|
  {
    var u :| u in s && Weight(s) == u.weight + Weight(s - {u});
    if u != t {
      WeightRemove(s - {u}, t);
      WeightRemove(s - {t}, u);
      assert s - {u} - {t} == s - {t} - {u};
    }
  }

  /** What every state built from the root over the tasks T keeps true for a
      vehicle of capacity cap: each task is waiting, on board or delivered, never
      two of these at once; the free room is the capacity less the weight on
      board and is never negative; the cost is never negative. */
  ghost predicate Sound(c: Config, T: set<Task>, cap: nat)
  {
    && c.available + c.picked <= T
    && c.available !! c.picked
    && c.remaining >= 0
    && c.remaining + Weight(c.picked) == cap
    && c.cost >= 0.0
  }

  /** The root of the search: every task waiting, nothing on board, nothing spent,
      the whole capacity free. */
  function Root(T: set<Task>, city: City, cap: nat): (c: Config)
    ensures Sound(c, T, cap)
  {
    Config(T, {}, city, 0.0, cap)
  }

  /** Every task delivered. */
  predicate Final(c: Config)
  {
    c.available == {} && c.picked == {}
  }

  /** pickUpTask on a state whose values are c: None when the vehicle has too
      little room left, and otherwise the state after driving to the pickup city
      and loading t. Without that refusal the source halts unless t is waiting
      and not on board. */
  function PickUp(c: Config, t: Task, dist: Distance, costPerKm: NonNegReal): (r: Option<Config>)
    requires c.remaining < t.weight || (t in c.available && t !in c.picked)
    ensures r.None? <==> c.remaining < t.weight
    ensures r.Some? ==> t in r.value.picked && t !in r.value.available && r.value.city == t.pickupCity
  {
    if c.remaining < t.weight then None
    else
      Some(Config(c.available - {t}, c.picked + {t}, t.pickupCity,
                  c.cost + dist(c.city, t.pickupCity) * costPerKm, c.remaining - t.weight))
  }

  /** deliverTask on a state whose values are c: drive to the delivery city and
      unload t. The source halts unless t is on board. */
  function Deliver(c: Config, t: Task, dist: Distance, costPerKm: NonNegReal): (r: Config)
    requires t in c.picked
    ensures t !in r.picked && r.available == c.available && r.city == t.deliveryCity
  {
    Config(c.available, c.picked - {t}, t.deliveryCity,
           c.cost + dist(c.city, t.deliveryCity) * costPerKm, c.remaining + t.weight)
  }

  /** A pickup moves the weight of t from free room to load: free room plus load
      is unchanged, and the trip never gets cheaper. */
  lemma PickUpConserves(c: Config, t: Task, dist: Distance, costPerKm: NonNegReal)
    requires t in c.available && t !in c.picked
    ensures var r := PickUp(c, t, dist, costPerKm);
      r.Some? ==>
        && r.value.remaining + Weight(r.value.picked) == c.remaining + Weight(c.picked)
        && r.value.available + r.value.picked == c.available + c.picked
        && r.value.cost >= c.cost
  {
    var r := PickUp(c, t, dist, costPerKm);
    if r.Some? {
      WeightRemove(c.picked + {t}, t);
      assert c.picked + {t} - {t} == c.picked;
    }
  }

  /** A delivery gives the weight of t back to the free room: free room plus load
      is unchanged, and the trip never gets cheaper. */
  lemma DeliverConserves(c: Config, t: Task, dist: Distance, costPerKm: NonNegReal)
    requires t in c.picked
    ensures var r := Deliver(c, t, dist, costPerKm);
      && r.remaining + Weight(r.picked) == c.remaining + Weight(c.picked)
      && r.available + r.picked + {t} == c.available + c.picked
      && r.cost >= c.cost
  {
    WeightRemove(c.picked, t);
  }

  /** Both operations keep a state sound. */
  lemma StepsKeepSound(c: Config, t: Task, dist: Distance, costPerKm: NonNegReal, T: set<Task>, cap: nat)
    requires Sound(c, T, cap)
    ensures t in c.available && PickUp(c, t, dist, costPerKm).Some? ==>
      Sound(PickUp(c, t, dist, costPerKm).value, T, cap)
    ensures t in c.picked ==> Sound(Deliver(c, t, dist, costPerKm), T, cap)
  {
    if t in c.available {
      PickUpConserves(c, t, dist, costPerKm);
    }
    if t in c.picked {
      DeliverConserves(c, t, dist, costPerKm);
    }
  }

  /** Delivering a task right after picking it up leaves the vehicle with the same
      load and free room as before, and t no longer waiting. */
  lemma DeliverUndoesPickUp(c: Config, t: Task, dist: Distance, costPerKm: NonNegReal)
    requires t in c.available && t !in c.picked && PickUp(c, t, dist, costPerKm).Some?
    ensures var d := Deliver(PickUp(c, t, dist, costPerKm).value, t, dist, costPerKm);
      d.picked == c.picked && d.remaining == c.remaining && d.available == c.available - {t}
  {
    assert c.picked + {t} - {t} == c.picked;
  }

  /** A search state. The parent chain is acyclic: depth grows along it, and
      ancestors collects it, so that equals can follow it. */
  class State {
    var available: set<Task>
    var picked: set<Task>
    var city: City
    var cost: real
    var remaining: int
    var parent: State?
    var pickedHere: bool
    ghost var depth: nat
    ghost var ancestors: set<State>

    /** The values equals compares, parent aside. */
    function Snap(): Config
      reads this
    {
      Config(available, picked, city, cost, remaining)
    }

    /** The parent chain ends, and ancestors is exactly the objects on it. */
    ghost predicate Linked()
      reads this, ancestors
      decreases depth
    {
      if parent == null then ancestors == {}
      else
        && parent in ancestors
        && ancestors == {parent} + parent.ancestors
        && parent.depth < depth
        && parent.Linked()
    }

    /** The values of this state and of every state on its parent chain, nearest
        first. */
    ghost function Lineage(): seq<Config>
      requires Linked()
      reads this, ancestors
      decreases depth
    {
      [Snap()] + if parent == null then [] else parent.Lineage()
    }

    /** new State(...): the parent passed in is dropped, and the flag starts false. */
    constructor(available: set<Task>, picked: set<Task>, city: City, cost: real, remaining: int, parentState: State?)
      ensures Snap() == Config(available, picked, city, cost, remaining)
      ensures parent == null && !pickedHere && Linked()
    {
      this.available := available;
      this.picked := picked;
      this.city := city;
      this.cost := cost;
      this.remaining := remaining;
      parent := null;
      pickedHere := false;
      depth := 0;
      ancestors := {};
    }

    /** clone(): a new state with the same values; as the constructor drops the
        parent, the copy has none, and its flag is false. */
    method Clone() returns (s: State)
      ensures fresh(s) && s.Snap() == Snap()
      ensures s.parent == null && !s.pickedHere && s.Linked()
    {
      s := new State(available, picked, city, cost, remaining, parent);
    }

    /** pickUpTask(t). */
    method PickUpTask(t: Task, dist: Distance, costPerKm: NonNegReal) returns (ok: bool)
      requires remaining < t.weight || (t in available && t !in picked)
      modifies this
      ensures ok <==> PickUp(old(Snap()), t, dist, costPerKm).Some?
      ensures ok ==> Snap() == PickUp(old(Snap()), t, dist, costPerKm).value && pickedHere
      ensures !ok ==> Snap() == old(Snap()) && pickedHere == old(pickedHere)
      ensures parent == old(parent) && depth == old(depth) && ancestors == old(ancestors)
    {
      if remaining < t.weight {
        return false;
      }
      available := available - {t};
      picked := picked + {t};
      cost := cost + dist(city, t.pickupCity) * costPerKm;
      remaining := remaining - t.weight;
      city := t.pickupCity;
      pickedHere := true;
      return true;
    }

    /** deliverTask(t). */
    method DeliverTask(t: Task, dist: Distance, costPerKm: NonNegReal) returns (ok: bool)
      requires t in picked
      modifies this
      ensures ok && Snap() == Deliver(old(Snap()), t, dist, costPerKm) && !pickedHere
      ensures parent == old(parent) && depth == old(depth) && ancestors == old(ancestors)
    {
      picked := picked - {t};
      cost := cost + dist(city, t.deliveryCity) * costPerKm;
      remaining := remaining + t.weight;
      city := t.deliveryCity;
      pickedHere := false;
      return true;
    }

    /** setParentState(p), on a state that is not on p's chain. */
    method SetParentState(p: State)
      requires p.Linked() && this != p && this !in p.ancestors
      modifies this
      ensures parent == p && Linked() && ancestors == {p} + p.ancestors
      ensures Snap() == old(Snap()) && pickedHere == old(pickedHere)
    {
      parent := p;
      depth := p.depth + 1;
      ancestors := {p} + p.ancestors;
    }

    /** equals(other). */
    function Equals(other: State): bool
      requires Linked() && other.Linked()
      reads this, ancestors, other, other.ancestors
      decreases depth
    {
      this == other ||
      (&& available == other.available
       && cost == other.cost
       && city == other.city
       && (if parent == null then other.parent == null
           else other.parent != null && parent.Equals(other.parent))
       && picked == other.picked
       && remaining == other.remaining)
    }
  }

  /** A lineage holds one entry per state on the chain. */
  lemma {:induction false} LineageLength(a: State)
    requires a.Linked()
    ensures |a.Lineage()| >= 1
    ensures (|a.Lineage()| == 1) == (a.parent == null)
    decreases a.depth
  {
    if a.parent != null {
      LineageLength(a.parent);
    }
  }

  /** Two states are equal exactly when they and their parent chains hold the same
      values, step by step; the pickedHere flag plays no part. */
  lemma {:induction false} EqualsIsLineage(a: State, b: State)
    requires a.Linked() && b.Linked()
    ensures a.Equals(b) <==> a.Lineage() == b.Lineage()
    decreases a.depth
  {
    if a != b && a.parent != null && b.parent != null {
      EqualsIsLineage(a.parent, b.parent);
      assert a.Lineage() == [a.Snap()] + a.parent.Lineage();
      assert b.Lineage() == [b.Snap()] + b.parent.Lineage();
      if a.Lineage() == b.Lineage() {
        assert a.Lineage()[1..] == a.parent.Lineage();
        assert b.Lineage()[1..] == b.parent.Lineage();
      }
    } else if a != b && a.parent != b.parent {
      LineageLength(a);
      LineageLength(b);
    } else if a != b {
      assert a.Lineage() == [a.Snap()] && b.Lineage() == [b.Snap()];
    }
  }
}
