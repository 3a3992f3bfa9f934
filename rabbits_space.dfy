/** The rabbits' garden: a grid of grass cells and a grid of rabbits over the
    same coordinates, and the rabbits that live on it. The two classes point at
    each other (a rabbit knows its garden, the garden holds its rabbits), so
    they share one module. */
module RabbitsSpace {
  import opened Logistics

  /** Two successive values of Math.random(): one for an x, one for a y. */
  type Draw = (Fraction, Fraction)

  /** (int) (Math.random() * sizeX), (int) (Math.random() * sizeY): the cell a
      pair of draws points at on a grid of that size. */
  function Spot(d: Draw, sizeX: nat, sizeY: nat): (c: (int, int))
    requires sizeX > 0 && sizeY > 0
    ensures 0 <= c.0 < sizeX && 0 <= c.1 < sizeY
  {
    (NextInt(d.0, sizeX), NextInt(d.1, sizeY))
  }

  /** The cells that planting with the given draws puts grass on. */
  ghost function Planted(spots: seq<Draw>, sizeX: nat, sizeY: nat): set<(int, int)>
  {
    if sizeX == 0 || sizeY == 0 then {} else set d | d in spots :: Spot(d, sizeX, sizeY)
  }

  /** (int) Math.floor(Math.random() * 3) - 1: one component of a heading. */
  function Heading(r: Fraction): (d: int)
    ensures -1 <= d <= 1
  {
    NextInt(r, 3) - 1
  }

  /** Each of -1, 0 and 1 is the heading of some draw. */
  lemma HeadingReaches(d: int)
    requires -1 <= d <= 1
    ensures exists r: Fraction :: Heading(r) == d
  {
    NextIntReaches(d + 1, 3);
    var r: Fraction := (d + 1) as real / 3.0;
    assert Heading(r) == d;
  }

  /** A pair of draws that ends the loop of setVxVy: not both components 0. */
  predicate Moves(d: Draw)
  {
    Heading(d.0) != 0 || Heading(d.1) != 0
  }

  /** The loop of setVxVy ends within these draws. */
  predicate HasMove(draws: seq<Draw>)
  {
    exists k :: 0 <= k < |draws| && Moves(draws[k])
  }

  /** The pair of draws setVxVy keeps: the first one that moves. */
  function FirstMove(draws: seq<Draw>): (k: nat)
    requires HasMove(draws)
    ensures k < |draws| && Moves(draws[k])
    ensures forall j :: 0 <= j < k ==> !Moves(draws[j])
  {
    if Moves(draws[0]) then 0
    else
      var k :| 0 <= k < |draws| && Moves(draws[k]);
      assert draws[1..][k - 1] == draws[k];
      1 + FirstMove(draws[1..])
  }

  /** (c + size) % size, where c is a coordinate of the grid moved by at most one
      cell. As c + size is never negative here, Java's remainder agrees with
      Dafny's. The wrap is toroidal: one step off either edge comes back in on
      the other side, and a coordinate on the grid stays where it is. */
  function Wrap(c: int, size: int): (r: int)
    requires size > 0 && -1 <= c <= size
    ensures 0 <= r < size
    ensures r == if c == -1 then size - 1 else if c == size then 0 else c
  {
    (c + size) % size
  }

  /** (int) r, Java's cast of a double to an int, which rounds toward zero. */
  function Trunc(r: real): (k: int)
    ensures 0.0 <= r ==> k as real <= r < k as real + 1.0
    ensures r < 0.0 ==> k as real - 1.0 < r <= k as real
  {
    if r >= 0.0 then r.Floor else -((-r).Floor)
  }

  /** Math.random() * n: a draw scaled to a part of n. */
  function Scale(r: Fraction, n: int): (p: real)
    ensures n > 0 ==> 0.0 <= p < n as real
    ensures n == 0 ==> p == 0.0
  {
    if n > 0 then
      ScaleBelow(r, n as real);
      r * n as real
    else
      r * n as real
  }

  /** A draw times a positive span falls inside the span. */
  lemma ScaleBelow(r: Fraction, m: real)
    requires m > 0.0
    ensures 0.0 <= r * m < m
  {
    var q := 1.0 - r;
    assert q > 0.0;
    assert m - r * m == q * m;
    assert q * m > 0.0;
  }

  /** (int) (Math.random() * (max - min) + min): the life span of a new rabbit. */
  function Lifespan(r: Fraction, minLifespan: int, maxLifespan: int): int
  {
    Trunc(Scale(r, maxLifespan - minLifespan) + minLifespan as real)
  }

  /** A new rabbit lives at least min and fewer than max steps when min < max
      and max is positive; with min == max it lives exactly min steps. */
  lemma LifespanRange(r: Fraction, minLifespan: int, maxLifespan: int)
    ensures minLifespan < maxLifespan && 0 < maxLifespan ==>
      minLifespan <= Lifespan(r, minLifespan, maxLifespan) < maxLifespan
    ensures minLifespan == maxLifespan ==> Lifespan(r, minLifespan, maxLifespan) == minLifespan
  {
    if minLifespan < maxLifespan && 0 < maxLifespan {
      var n := maxLifespan - minLifespan;
      assert n as real == maxLifespan as real - minLifespan as real;
      var p := Scale(r, n);
      assert minLifespan as real <= p + minLifespan as real < maxLifespan as real;
      TruncWithin(Scale(r, maxLifespan - minLifespan) + minLifespan as real, minLifespan, maxLifespan);
    }
  }

  /** Rounding toward zero keeps a value between two integers when the upper
      one is positive. */
  lemma TruncWithin(v: real, lo: int, hi: int)
    requires lo as real <= v < hi as real && 0 < hi
    ensures lo <= Trunc(v) < hi
  {
  }

  /** RabbitsGrassSimulationSpace: grassSpace and agentSpace. A grass cell holds 1
      when it has grass and 0 when it has been eaten; the constructor fills every
      cell, so no grass cell is ever empty. */
  class Space {
    var grass: array2<int>
    var agents: array2<Agent?>

    /** The two grids have the same size. */
    predicate Valid()
      reads this
    {
      grass.Length0 == agents.Length0 && grass.Length1 == agents.Length1
    }

    function SizeX(): nat
      reads this
    {
      agents.Length0
    }

    function SizeY(): nat
      reads this
    {
      agents.Length1
    }

    predicate InGrid(x: int, y: int)
      reads this
    {
      0 <= x < SizeX() && 0 <= y < SizeY()
    }

    /** hasGrass(x, y). */
    predicate HasGrass(x: int, y: int)
      requires Valid() && InGrid(x, y)
      reads this, grass
    {
      grass[x, y] > 0
    }

    /** isCellOccupied(x, y). */
    predicate Occupied(x: int, y: int)
      requires InGrid(x, y)
      reads this, agents
    {
      agents[x, y] != null
    }

    /** The rabbits on the grid. */
    ghost function Occupants(): set<Agent?>
      reads this, agents
    {
      set i, j | 0 <= i < SizeX() && 0 <= j < SizeY() && agents[i, j] != null :: agents[i, j]
    }

    /** The cells that have grass. */
    ghost function Grassy(): set<(int, int)>
      requires Valid()
      reads this, grass
    {
      set i, j | 0 <= i < SizeX() && 0 <= j < SizeY() && grass[i, j] > 0 :: (i, j)
    }

    /** The cells with grass that come before (i, j) in row order. */
    ghost function GrassyBefore(i: int, j: int): set<(int, int)>
      requires Valid()
      reads this, grass
    {
      set a, b | 0 <= a < SizeX() && 0 <= b < SizeY() && (a < i || (a == i && b < j)) && grass[a, b] > 0 :: (a, b)
    }

    /** new RabbitsGrassSimulationSpace(xSize, ySize): no grass anywhere, no
        rabbit anywhere. */
    constructor(xSize: nat, ySize: nat)
      ensures Valid() && SizeX() == xSize && SizeY() == ySize
      ensures forall i, j :: 0 <= i < xSize && 0 <= j < ySize ==> grass[i, j] == 0 && agents[i, j] == null
      ensures fresh(grass) && fresh(agents)
    {
      var g := new int[xSize, ySize];
      var i := 0;
      while i < xSize
        invariant 0 <= i <= xSize
        invariant forall a, b :: 0 <= a < i && 0 <= b < ySize ==> g[a, b] == 0
      {
        var j := 0;
        while j < ySize
          invariant 0 <= j <= ySize
          invariant forall a, b :: 0 <= a < i && 0 <= b < ySize ==> g[a, b] == 0
          invariant forall b :: 0 <= b < j ==> g[i, b] == 0
        {
          g[i, j] := 0;
          j := j + 1;
        }
        i := i + 1;
      }
      grass := g;
      agents := new Agent?[xSize, ySize]((i, j) => null);
    }

    /** plantGrass(amount), drawing the cell of the k-th tuft from spots[k]: the
        drawn cells get 1, every other cell keeps what it had. A cell drawn twice
        gets one tuft. The source halts on an empty grid unless amount <= 0. */
    method PlantGrass(amount: int, spots: seq<Draw>)
      requires Valid()
      requires amount > 0 ==> SizeX() > 0 && SizeY() > 0 && |spots| >= amount
      modifies grass
      ensures forall i, j :: InGrid(i, j) ==>
        grass[i, j] == if (i, j) in Planted(spots[..if amount > 0 then amount else 0], SizeX(), SizeY()) then 1 else old(grass[i, j])
    {
      var i := 0;
      while i < amount
        invariant 0 <= i <= if amount > 0 then amount else 0
        invariant forall a, b :: InGrid(a, b) ==>
          grass[a, b] == if (a, b) in Planted(spots[..i], SizeX(), SizeY()) then 1 else old(grass[a, b])
      {
        var x := NextInt(spots[i].0, grass.Length0);
        var y := NextInt(spots[i].1, grass.Length1);
        grass[x, y] := 1;
        PlantedStep(spots, i);
        i := i + 1;
      }
    }

    /** One more draw plants one more cell. */
    lemma PlantedStep(spots: seq<Draw>, i: int)
      requires 0 <= i < |spots| && SizeX() > 0 && SizeY() > 0
      ensures Planted(spots[..i + 1], SizeX(), SizeY()) == Planted(spots[..i], SizeX(), SizeY()) + {Spot(spots[i], SizeX(), SizeY())}
    {
      assert spots[..i + 1] == spots[..i] + [spots[i]];
    }

    /** addAgent(agent), drawing the k-th try from spots[k]: at most 10 * X * Y
        tries, and the rabbit goes on the first free cell drawn; when every try
        hits an occupied cell, nothing changes. */
    method AddAgent(agent: Agent, spots: seq<Draw>) returns (placed: bool)
      requires Valid() && |spots| >= 10 * SizeX() * SizeY()
      modifies agents, agent
      ensures placed <==> exists k :: 0 <= k < 10 * SizeX() * SizeY() && old(agents[Spot(spots[k], SizeX(), SizeY()).0, Spot(spots[k], SizeX(), SizeY()).1]) == null
      ensures placed ==> var (px, py) := (agent.x, agent.y);
        && InGrid(px, py) && old(agents[px, py]) == null
        && agents[agent.x, agent.y] == agent && agent.garden == this
        && (forall i, j :: InGrid(i, j) && (i, j) != (agent.x, agent.y) ==> agents[i, j] == old(agents[i, j]))
      ensures placed ==>
        exists k ::
          && 0 <= k < 10 * SizeX() * SizeY()
          && (agent.x, agent.y) == Spot(spots[k], SizeX(), SizeY())
          && (forall j :: 0 <= j < k ==> old(agents[Spot(spots[j], SizeX(), SizeY()).0, Spot(spots[j], SizeX(), SizeY()).1]) != null)
      ensures !placed ==> unchanged(agents) && unchanged(agent)
      ensures agent.grass == old(agent.grass) && agent.stepsToLive == old(agent.stepsToLive)
      ensures agent.vX == old(agent.vX) && agent.vY == old(agent.vY) && agent.id == old(agent.id)
    {
      placed := false;
      var count := 0;
      var countLimit := 10 * agents.Length0 * agents.Length1;
      ghost var first := 0;
      while !placed && count < countLimit
        invariant 0 <= count <= countLimit
        invariant placed ==>
          && 0 <= first < count
          && (agent.x, agent.y) == Spot(spots[first], SizeX(), SizeY())
          && (forall j :: 0 <= j < first ==> old(agents[Spot(spots[j], SizeX(), SizeY()).0, Spot(spots[j], SizeX(), SizeY()).1]) != null)
        invariant !placed ==> unchanged(agents) && unchanged(agent)
        invariant !placed ==> forall k :: 0 <= k < count ==> old(agents[Spot(spots[k], SizeX(), SizeY()).0, Spot(spots[k], SizeX(), SizeY()).1]) != null
        invariant placed ==>
          && (exists k :: 0 <= k < countLimit && old(agents[Spot(spots[k], SizeX(), SizeY()).0, Spot(spots[k], SizeX(), SizeY()).1]) == null)
          && (var (px, py) := (agent.x, agent.y); InGrid(px, py) && old(agents[px, py]) == null)
          && agents[agent.x, agent.y] == agent && agent.garden == this
          && (forall i, j :: InGrid(i, j) && (i, j) != (agent.x, agent.y) ==> agents[i, j] == old(agents[i, j]))
        invariant agent.grass == old(agent.grass) && agent.stepsToLive == old(agent.stepsToLive)
        invariant agent.vX == old(agent.vX) && agent.vY == old(agent.vY) && agent.id == old(agent.id)
      {
        var x := NextInt(spots[count].0, agents.Length0);
        var y := NextInt(spots[count].1, agents.Length1);
        if agents[x, y] == null {
          agents[x, y] := agent;
          agent.SetXY(x, y);
          agent.garden := this;
          placed := true;
          first := count;
        }
        count := count + 1;
      }
    }

    /** removeAgentAt(x, y). */
    method RemoveAgentAt(x: int, y: int)
      requires InGrid(x, y)
      modifies agents
      ensures agents[x, y] == null
      ensures forall i, j :: InGrid(i, j) && (i, j) != (x, y) ==> agents[i, j] == old(agents[i, j])
    {
      agents[x, y] := null;
    }

    /** eatGrass(x, y): whether the cell had grass, and it has none after. */
    method EatGrass(x: int, y: int) returns (ate: bool)
      requires Valid() && InGrid(x, y)
      modifies grass
      ensures ate == old(HasGrass(x, y)) && !HasGrass(x, y) && grass[x, y] == 0
      ensures forall i, j :: InGrid(i, j) && (i, j) != (x, y) ==> grass[i, j] == old(grass[i, j])
    {
      ate := HasGrass(x, y);
      grass[x, y] := 0;
    }

    /** moveAgentAt(x, y, newX, newY): succeeds exactly when the target is free;
        then the rabbit from (x, y) stands on the target and knows it, and (x, y)
        is free. On failure nothing changes. The source halts when the target is
        free and (x, y) holds no rabbit. */
    method MoveAgentAt(x: int, y: int, newX: int, newY: int) returns (moved: bool)
      requires InGrid(x, y) && InGrid(newX, newY)
      requires agents[newX, newY] == null ==> agents[x, y] != null
      modifies agents, agents[x, y]
      ensures moved <==> old(agents[newX, newY]) == null
      ensures moved ==>
        && agents[newX, newY] == old(agents[x, y]) && agents[x, y] == null
        && (forall i, j :: InGrid(i, j) && (i, j) != (x, y) && (i, j) != (newX, newY) ==> agents[i, j] == old(agents[i, j]))
        && agents[newX, newY].x == newX && agents[newX, newY].y == newY
      ensures !moved ==> unchanged(agents)
      ensures old(agents[x, y]) != null ==> var a := old(agents[x, y]);
        && a.grass == old(a.grass) && a.stepsToLive == old(a.stepsToLive) && a.garden == old(a.garden)
        && a.vX == old(a.vX) && a.vY == old(a.vY) && a.id == old(a.id)
        && (!moved ==> a.x == old(a.x) && a.y == old(a.y))
    {
      moved := false;
      if agents[newX, newY] == null {
        var rgsa := agents[x, y];
        RemoveAgentAt(x, y);
        rgsa.SetXY(newX, newY);
        agents[newX, newY] := rgsa;
        moved := true;
      }
    }

    /** getAgentAt(x, y): the rabbit on the cell, or null. */
    function AgentAt(x: int, y: int): Agent?
      requires InGrid(x, y)
      reads this, agents
    {
      agents[x, y]
    }

    /** getAllGrass(): the number of cells with grass, at most the number of
        cells. */
    method GetAllGrass() returns (count: int)
      requires Valid()
      ensures count == |Grassy()| && 0 <= count <= SizeX() * SizeY()
    {
      count := 0;
      var i := 0;
      while i < agents.Length0
        invariant 0 <= i <= SizeX()
        invariant count == |GrassyBefore(i, 0)| && count <= i * SizeY()
      {
        var j := 0;
        while j < agents.Length1
          invariant 0 <= j <= SizeY()
          invariant count == |GrassyBefore(i, j)| && count <= i * SizeY() + j
        {
          GrassyStep(i, j);
          count := count + if HasGrass(i, j) then 1 else 0;
          j := j + 1;
        }
        GrassyRow(i);
        i := i + 1;
      }
      GrassyAll();
    }

    /** Looking at one more cell adds it to the count when it has grass. */
    lemma GrassyStep(i: int, j: int)
      requires Valid() && InGrid(i, j)
      ensures (i, j) !in GrassyBefore(i, j)
      ensures GrassyBefore(i, j + 1) == GrassyBefore(i, j) + if grass[i, j] > 0 then {(i, j)} else {}
    {
    }

    /** The end of a row is the start of the next. */
    lemma GrassyRow(i: int)
      requires Valid()
      ensures GrassyBefore(i + 1, 0) == GrassyBefore(i, SizeY())
      ensures (i + 1) * SizeY() == i * SizeY() + SizeY()
    {
    }

    /** Past the last row, every cell has been looked at. */
    lemma GrassyAll()
      requires Valid()
      ensures GrassyBefore(SizeX(), 0) == Grassy()
    {
    }
  }

  /** RabbitsGrassSimulationAgent. id is the value of the static counter IDNumber
      after this rabbit was made. */
  class Agent {
    var x: int
    var y: int
    var vX: int
    var vY: int
    var grass: int
    var stepsToLive: int
    var id: int
    var garden: Space?

    /** A heading setVxVy can leave: each component in {-1, 0, 1}, not both 0. */
    predicate Heads()
      reads this
    {
      -1 <= vX <= 1 && -1 <= vY <= 1 && (vX != 0 || vY != 0)
    }

    /** The rabbit stands in its garden, on the cell its coordinates name. */
    predicate Sits()
      reads this, garden, if garden == null then {} else {garden.agents}
    {
      garden != null && garden.Valid() && garden.InGrid(x, y) && garden.agents[x, y] == this
    }

    /** The cell step aims at: one cell along the heading, wrapped around the
        edges. */
    function Ahead(): (c: (int, int))
      requires garden != null && garden.InGrid(x, y) && -1 <= vX <= 1 && -1 <= vY <= 1
      reads this, garden
      ensures garden.InGrid(c.0, c.1)
    {
      (Wrap(x + vX, garden.SizeX()), Wrap(y + vY, garden.SizeY()))
    }

    /** new RabbitsGrassSimulationAgent(min, max), with the counter IDNumber at
        lastId: off the grid, no garden, no grass, a heading that moves, and a
        life span drawn from life. */
    constructor(minLifespan: int, maxLifespan: int, headings: seq<Draw>, life: Fraction, lastId: int)
      requires HasMove(headings)
      ensures x == -1 && y == -1 && garden == null && grass == 0 && id == lastId + 1
      ensures Heads() && vX == Heading(headings[FirstMove(headings)].0) && vY == Heading(headings[FirstMove(headings)].1)
      ensures stepsToLive == Lifespan(life, minLifespan, maxLifespan)
    {
      x := -1;
      y := -1;
      garden := null;
      new;
      SetVxVy(headings);
      grass := 0;
      stepsToLive := Trunc(Scale(life, maxLifespan - minLifespan) + minLifespan as real);
      id := lastId + 1;
    }

    /** setVxVy(), drawing the k-th try from headings[k]: the first pair of draws
        that is not (0, 0) becomes the heading. */
    method SetVxVy(headings: seq<Draw>)
      requires HasMove(headings)
      modifies this
      ensures Heads() && vX == Heading(headings[FirstMove(headings)].0) && vY == Heading(headings[FirstMove(headings)].1)
      ensures x == old(x) && y == old(y) && grass == old(grass) && stepsToLive == old(stepsToLive)
      ensures id == old(id) && garden == old(garden)
    {
      vX := 0;
      vY := 0;
      var k := 0;
      while vX == 0 && vY == 0
        invariant 0 <= k <= FirstMove(headings) + 1
        invariant k <= FirstMove(headings) ==> vX == 0 && vY == 0
        invariant k == FirstMove(headings) + 1 ==>
          vX == Heading(headings[k - 1].0) && vY == Heading(headings[k - 1].1)
        invariant x == old(x) && y == old(y) && grass == old(grass) && stepsToLive == old(stepsToLive)
        invariant id == old(id) && garden == old(garden)
        decreases FirstMove(headings) + 1 - k
      {
        vX := Heading(headings[k].0);
        vY := Heading(headings[k].1);
        k := k + 1;
      }
    }

    /** setXY(newX, newY). */
    method SetXY(newX: int, newY: int)
      modifies this
      ensures x == newX && y == newY
      ensures vX == old(vX) && vY == old(vY) && grass == old(grass) && stepsToLive == old(stepsToLive)
      ensures id == old(id) && garden == old(garden)
    {
      x := newX;
      y := newY;
    }

    /** receiveGrass(amount). */
    method ReceiveGrass(amount: int)
      modifies this
      ensures grass == old(grass) + amount
      ensures x == old(x) && y == old(y) && vX == old(vX) && vY == old(vY)
      ensures stepsToLive == old(stepsToLive) && id == old(id) && garden == old(garden)
    {
      grass := grass + amount;
    }

    /** step(), drawing a new heading from headings when the move is blocked.
        The rabbit tries the cell ahead. When it is free, the rabbit moves there
        and eats: its grass grows by one exactly when the new cell had grass, and
        that cell is left bare. When it is taken, the rabbit stays, hands one unit
        of grass to the rabbit in the way if it has any, and turns. Either way one
        step of life is gone. Only the two cells involved change. */
    method Step(headings: seq<Draw>)
      requires Sits() && -1 <= vX <= 1 && -1 <= vY <= 1 && HasMove(headings)
      modifies this, garden.agents, garden.grass, garden.agents[Ahead().0, Ahead().1]
      ensures garden == old(garden) && Sits() && -1 <= vX <= 1 && -1 <= vY <= 1
      ensures stepsToLive == old(stepsToLive) - 1 && id == old(id)
      ensures old(garden.agents[Ahead().0, Ahead().1]) == null ==>
        && (x, y) == old(Ahead()) && garden.agents[old(x), old(y)] == null
        && grass == old(grass) + (if old(garden.grass[Ahead().0, Ahead().1]) > 0 then 1 else 0)
        && garden.grass[x, y] == 0
        && vX == old(vX) && vY == old(vY)
      ensures old(garden.agents[Ahead().0, Ahead().1]) != null ==>
        && x == old(x) && y == old(y)
        && unchanged(garden.agents) && unchanged(garden.grass)
        && Heads() && vX == Heading(headings[FirstMove(headings)].0) && vY == Heading(headings[FirstMove(headings)].1)
      ensures var other := old(garden.agents[Ahead().0, Ahead().1]);
        other != null && other != this ==>
          && (old(grass) > 0 ==> grass == old(grass) - 1 && other.grass == old(other.grass) + 1)
          && (old(grass) <= 0 ==> grass == old(grass) && other.grass == old(other.grass))
          && other.x == old(other.x) && other.y == old(other.y) && other.garden == old(other.garden)
          && other.vX == old(other.vX) && other.vY == old(other.vY)
          && other.stepsToLive == old(other.stepsToLive) && other.id == old(other.id)
      ensures old(garden.agents[Ahead().0, Ahead().1]) == this ==> grass == old(grass)
      ensures forall i, j :: garden.InGrid(i, j) && (i, j) != old((x, y)) && (i, j) != old(Ahead()) ==>
        garden.agents[i, j] == old(garden.agents[i, j]) && garden.grass[i, j] == old(garden.grass[i, j])
    {
      var newX := x + vX;
      var newY := y + vY;
      var grid := garden;
      newX := Wrap(newX, grid.agents.Length0);
      newY := Wrap(newY, grid.agents.Length1);
      var moved := grid.MoveAgentAt(x, y, newX, newY);
      if moved {
        var ate := grid.EatGrass(x, y);
        grass := grass + if ate then 1 else 0;
      } else {
        var rgsa := grid.AgentAt(newX, newY);
        if rgsa != null {
          if grass > 0 {
            rgsa.ReceiveGrass(1);
            grass := grass - 1;
          }
        }
        SetVxVy(headings);
      }
      stepsToLive := stepsToLive - 1;
    }
  }
}
