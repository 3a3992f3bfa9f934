/** One step of a vehicle's route: the VAction hierarchy (VPickupAction and
    VDeliveryAction) as a tagged value. */
module VActions {
  import opened Logistics

  datatype Kind = Pickup | Delivery

  /** A pickup or delivery of a task, annotated with the vehicle's free capacity
      after the step (remainingVCapacity). */
  datatype VAction = VAction(kind: Kind, task: Task, remaining: int)

  /** The weight a step adds to the vehicle's load: +w for a pickup, -w for a delivery. */
  function Delta(a: VAction): int
  {
    if a.kind == Pickup then a.task.weight else -(a.task.weight as int)
  }

  /** The load after a sequence of steps: weight picked up minus weight delivered. */
  function Load(s: seq<VAction>): int
  {
    if s == [] then 0 else Delta(s[0]) + Load(s[1..])
  }

  /** VPickupAction.updateCapacity / VDeliveryAction.updateCapacity: set the step's
      annotation from the free capacity before it, and report whether it is still
      non-negative (a delivery always reports true). */
  function UpdateCapacity(a: VAction, before: int): (r: (VAction, bool))
    ensures r.0.kind == a.kind && r.0.task == a.task
    ensures r.0.remaining == before - Delta(a)
    ensures a.kind == Pickup ==> r.0.remaining == before - a.task.weight && (r.1 <==> r.0.remaining >= 0)
    ensures a.kind == Delivery ==> r.0.remaining == before + a.task.weight && r.1
    ensures r.1 && before >= 0 ==> r.0.remaining >= 0
  {
    if a.kind == Pickup then
      var c := before - a.task.weight;
      (a.(remaining := c), c >= 0)
    else
      (a.(remaining := before + a.task.weight), true)
  }

  /** getCity: where the step happens. */
  function GetCity(a: VAction): City
  {
    if a.kind == Pickup then a.task.pickupCity else a.task.deliveryCity
  }

  /** VAction.equals: same kind and same task; the annotation is ignored. */
  predicate SameKey(a: VAction, b: VAction)
  {
    a.kind == b.kind && a.task == b.task
  }

  /** VAction.hashCode, with the task's own hash code as a parameter and Java's
      32-bit wrap-around. */
  function HashCode(a: VAction, taskHash: int): int
  {
    var kindHash := if a.kind == Pickup then 1231 else 1237;
    Wrap32(31 * (31 * 1 + kindHash) + taskHash)
  }

  /** Equal steps hash equally, and the annotation plays no part in either. */
  lemma HashCodeAgreesWithEquals(a: VAction, b: VAction, taskHash: Task -> int)
    requires SameKey(a, b)
    ensures HashCode(a, taskHash(a.task)) == HashCode(b, taskHash(b.task))
    ensures SameKey(a.(remaining := b.remaining), b)
  {
  }

  /** For the same task the two kinds never collide: their hashes differ by 31 * 6. */
  lemma {:induction false} HashCodeSeparatesKinds(t: Task, x: int, y: int, h: int)
    ensures HashCode(VAction(Pickup, t, x), h) != HashCode(VAction(Delivery, t, y), h)
  {
    var p := 31 * (31 + 1231) + h;
    var d := 31 * (31 + 1237) + h;
    assert d == p + 186;
    assert (Wrap32(d) - d) % 0x1_0000_0000 == 0 && (Wrap32(p) - p) % 0x1_0000_0000 == 0;
  }

  /** The constructors of VPickupAction and VDeliveryAction store the task and
      annotation unchanged and fix the kind. */
  function NewPickup(t: Task, remaining: int): (a: VAction)
    ensures a.kind == Pickup && a.task == t && a.remaining == remaining
    ensures GetCity(a) == t.pickupCity && Delta(a) == t.weight
  {
    VAction(Pickup, t, remaining)
  }

  function NewDelivery(t: Task, remaining: int): (a: VAction)
    ensures a.kind == Delivery && a.task == t && a.remaining == remaining
    ensures GetCity(a) == t.deliveryCity && Delta(a) == -(t.weight as int)
  {
    VAction(Delivery, t, remaining)
  }

  /** The load of a route is the sum of the loads of its parts. */
  lemma {:induction false} LoadAppend(a: seq<VAction>, b: seq<VAction>)
    ensures Load(a + b) == Load(a) + Load(b)
    decreases |a|
  {
    if a != [] {
      assert (a + b)[0] == a[0] && (a + b)[1..] == a[1..] + b;
      LoadAppend(a[1..], b);
    } else {
      assert a + b == b;
    }
  }

  /** The load only depends on the kinds and tasks of the steps. */
  lemma {:induction false} LoadSameKeys(a: seq<VAction>, b: seq<VAction>)
    requires |a| == |b|
    requires forall m :: 0 <= m < |a| ==> SameKey(a[m], b[m])
    ensures Load(a) == Load(b)
    decreases |a|
  {
    if a != [] {
      LoadSameKeys(a[1..], b[1..]);
    }
  }

  /** A pickup and the matching delivery together add no load. */
  lemma PairLoad(t: Task, x: int, y: int)
    ensures Load([NewPickup(t, x), NewDelivery(t, y)]) == 0
  {
    var d := [NewDelivery(t, y)];
    assert [NewPickup(t, x), NewDelivery(t, y)][1..] == d && d[1..] == [];
    assert Load(d) == Delta(d[0]) + Load([]);
  }
}
