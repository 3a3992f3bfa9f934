/** The platform values the planners read but never change: cities, tasks,
    vehicles, the distance oracle, and the random numbers the agents draw. */
module Logistics {

  /** A city of the topology, identified by its index. */
  type City = nat

  /** A transport task. Only the weight matters for feasibility; the id is what
      survives from one planning round to the next. */
  datatype Task = Task(id: int, pickupCity: City, deliveryCity: City, weight: nat, reward: int)

  /** A vehicle as the planners see it. */
  datatype Vehicle = Vehicle(id: int, home: City, capacity: nat, costPerKm: nat)

  type NonNegReal = r: real | r >= 0.0

  /** City.distanceTo: an arbitrary non-negative distance, supplied by the caller. */
  type Distance = (City, City) -> NonNegReal

  /** A value of Math.random() or Random.nextDouble(): a real in [0, 1). */
  type Fraction = r: real | 0.0 <= r < 1.0

  datatype Option<T> = None | Some(value: T)

  /** Random.nextInt(n), or (int) (Math.random() * n), for a draw r: the integer part of r * n. */
  function NextInt(r: Fraction, n: nat): (k: nat)
    requires n > 0
    ensures k < n
  {
    assert 0.0 <= r * n as real < n as real;
    (r * n as real).Floor
  }

  /** The draw is the integer part of r * n. */
  lemma NextIntIsFloor(r: Fraction, n: nat)
    requires n > 0
    ensures NextInt(r, n) as real <= r * n as real < NextInt(r, n) as real + 1.0
  {
  }

  /** Every index below n is the result of some draw. */
  lemma NextIntReaches(k: nat, n: nat)
    requires k < n
    ensures 0.0 <= k as real / n as real < 1.0
    ensures NextInt(k as real / n as real, n) == k
  {
    var r := k as real / n as real;
    assert r * n as real == k as real;
    NextIntIsFloor(r, n);
  }

  /** Java's 32-bit int arithmetic wraps around. */
  function Wrap32(x: int): (r: int)
    ensures -0x8000_0000 <= r < 0x8000_0000
    ensures (r - x) % 0x1_0000_0000 == 0
  {
    (x + 0x8000_0000) % 0x1_0000_0000 - 0x8000_0000
  }
}
