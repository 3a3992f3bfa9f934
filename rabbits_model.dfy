/** RabbitsGrassSimulationModel: the list of rabbits, how it is built, how one
    tick of the schedule steps every rabbit, removes the dead and replaces them,
    and how the living are counted. */
module RabbitsModel {
  import opened Logistics
  import opened RabbitsSpace

  /** The draws one new rabbit consumes: the tries of setVxVy, the draw of its
      life span, and the tries of addAgent. */
  datatype Birth = Birth(headings: seq<Draw>, life: Fraction, spots: seq<Draw>)

  /** The loops of setVxVy and addAgent end within the draws of b. */
  predicate Feasible(b: Birth, sizeX: nat, sizeY: nat)
  {
    HasMove(b.headings) && |b.spots| >= 10 * sizeX * sizeY
  }

  /** The rabbits of s that still have steps to live, in their order in s. */
  function Survivors(s: seq<Agent>): (r: seq<Agent>)
    reads set a | a in s
    ensures |r| <= |s|
  {
    if s == [] then [] else (if s[0].stepsToLive > 0 then [s[0]] else []) + Survivors(s[1..])
  }

  /** A rabbit survives exactly when it is in the list and has steps to live. */
  lemma {:induction false} SurvivorsMembers(s: seq<Agent>)
    ensures forall a :: a in Survivors(s) <==> a in s && a.stepsToLive > 0
  {
    if s != [] {
      SurvivorsMembers(s[1..]);
      assert forall a :: a in s <==> a == s[0] || a in s[1..];
    }
  }

  /** Survivors looks at one rabbit at a time, from the front. */
  lemma {:induction false} SurvivorsAppend(s: seq<Agent>, a: Agent)
    ensures Survivors(s + [a]) == Survivors(s) + if a.stepsToLive > 0 then [a] else []
  {
    if s == [] {
      assert [a][1..] == [];
    } else {
      assert (s + [a])[1..] == s[1..] + [a];
      SurvivorsAppend(s[1..], a);
    }
  }

  /** Removing the dead from a list with no dead in it changes nothing. */
  lemma {:induction false} SurvivorsIdempotent(s: seq<Agent>)
    ensures Survivors(Survivors(s)) == Survivors(s)
  {
    if s != [] {
      SurvivorsIdempotent(s[1..]);
      if s[0].stepsToLive > 0 {
        assert ([s[0]] + Survivors(s[1..]))[1..] == Survivors(s[1..]);
      } else {
        assert Survivors(s) == Survivors(s[1..]);
      }
    }
  }

  /** The survivors of a suffix: the first rabbit if it lives, then the rest. */
  lemma SurvivorsFrom(s: seq<Agent>, i: int)
    requires 0 <= i < |s|
    ensures Survivors(s[i..]) == (if s[i].stepsToLive > 0 then [s[i]] else []) + Survivors(s[i + 1..])
  {
    assert s[i..][1..] == s[i + 1..];
  }

  /** The draws of the tufts the rabbit a, the k-th of the list, leaves behind
      when it dies: one per unit of grass it carries. */
  function Tufts(a: Agent, k: nat, plantDraws: (nat, nat) -> Draw): (r: seq<Draw>)
    reads a
    ensures |r| == if a.grass > 0 then a.grass else 0
  {
    seq(if a.grass > 0 then a.grass else 0, t requires 0 <= t => plantDraws(k, t))
  }

  /** A shuffle of a list has its length and its rabbits. */
  lemma SameRabbits(s: seq<Agent>, t: seq<Agent>)
    requires multiset(s) == multiset(t)
    ensures |s| == |t| && forall a :: a in s <==> a in t
  {
    assert |s| == |multiset(s)|;
    forall a ensures a in s <==> a in t {
      assert a in s <==> a in multiset(s);
      assert a in t <==> a in multiset(t);
    }
  }

  /** The cells of the rabbits of list past index i without steps to live. */
  ghost function DeadCells(list: seq<Agent>, i: int): set<(int, int)>
    requires -1 <= i < |list|
    reads set a | a in list
    decreases |list| - i
  {
    if i == |list| - 1 then {}
    else DeadCells(list, i + 1) + (if list[i + 1].stepsToLive < 1 then {(list[i + 1].x, list[i + 1].y)} else {})
  }

  /** The cells drawn for the tufts of the rabbits of list past index i without
      steps to live. */
  ghost function Tufted(list: seq<Agent>, i: int, plantDraws: (nat, nat) -> Draw, sizeX: nat, sizeY: nat): set<(int, int)>
    requires -1 <= i < |list|
    reads set a | a in list
    decreases |list| - i
  {
    if i == |list| - 1 then {}
    else
      Tufted(list, i + 1, plantDraws, sizeX, sizeY)
      + (if list[i + 1].stepsToLive < 1 then Planted(Tufts(list[i + 1], i + 1, plantDraws), sizeX, sizeY) else {})
  }

  /** The contents of a grid, row by row. */
  ghost function Snapshot<T>(g: array2<T>): (s: seq<seq<T>>)
    reads g
    ensures |s| == g.Length0
    ensures forall p :: 0 <= p < g.Length0 ==> |s[p]| == g.Length1
    ensures forall p, q :: 0 <= p < g.Length0 && 0 <= q < g.Length1 ==> s[p][q] == g[p, q]
  {
    seq(g.Length0, p requires 0 <= p < g.Length0 reads g => seq(g.Length1, q requires 0 <= q < g.Length1 reads g => g[p, q]))
  }

  /** The model object, with the settings buildModel reads and the counter
      IDNumber that every new rabbit advances. */
  class Simulation {
    var garden: Space
    var agentList: seq<Agent>
    var agentMinLifespan: int
    var agentMaxLifespan: int
    var idNumber: int

    /** Every listed rabbit stands in the garden on the cell its coordinates
        name, with a heading step accepts. step relies on this. */
    ghost predicate Settled()
      reads this, garden, garden.agents, set a | a in agentList
    {
      && garden.Valid()
      && forall a :: a in agentList ==>
           && a.garden == garden && garden.InGrid(a.x, a.y) && garden.agents[a.x, a.y] == a
           && -1 <= a.vX <= 1 && -1 <= a.vY <= 1
    }

    /** buildModel(): a garden of the given size, grass planted with spots, and
        numAgents rabbits made with the births, in order. */
    constructor(numAgents: int, worldXSize: nat, worldYSize: nat, grass: int,
                minLifespan: int, maxLifespan: int, lastId: int,
                spots: seq<Draw>, births: seq<Birth>)
      requires grass > 0 ==> worldXSize > 0 && worldYSize > 0 && |spots| >= grass
      requires |births| >= numAgents
      requires forall k :: 0 <= k < |births| ==> Feasible(births[k], worldXSize, worldYSize)
      ensures |agentList| == if numAgents > 0 then numAgents else 0
      ensures forall a :: a in agentList ==> fresh(a) && a.grass == 0
      ensures idNumber == lastId + |agentList|
      ensures forall k :: 0 <= k < |agentList| ==> agentList[k].id == lastId + k + 1
      ensures fresh(garden) && garden.Valid() && garden.SizeX() == worldXSize && garden.SizeY() == worldYSize
      ensures forall i, j :: garden.InGrid(i, j) ==>
        garden.grass[i, j] == if (i, j) in Planted(spots[..if grass > 0 then grass else 0], worldXSize, worldYSize) then 1 else 0
    {
      garden := new Space(worldXSize, worldYSize);
      agentList := [];
      agentMinLifespan := minLifespan;
      agentMaxLifespan := maxLifespan;
      idNumber := lastId;
      new;
      garden.PlantGrass(grass, spots);
      var i := 0;
      while i < numAgents
        invariant 0 <= i <= if numAgents > 0 then numAgents else 0
        invariant |agentList| == i && idNumber == lastId + i
        invariant fresh(garden) && fresh(garden.agents) && garden.Valid()
        invariant garden.SizeX() == worldXSize && garden.SizeY() == worldYSize
        invariant forall a :: a in agentList ==> fresh(a) && a.grass == 0
        invariant forall k :: 0 <= k < |agentList| ==> agentList[k].id == lastId + k + 1
        invariant forall i, j :: garden.InGrid(i, j) ==>
          garden.grass[i, j] == if (i, j) in Planted(spots[..if grass > 0 then grass else 0], worldXSize, worldYSize) then 1 else 0
      {
        AddNewAgent(births[i]);
        i := i + 1;
      }
    }

    /** addNewAgent(): a new rabbit goes at the end of the list whether or not
        the garden finds room for it; only its cell of the grid can change. */
    method AddNewAgent(b: Birth)
      requires garden.Valid() && Feasible(b, garden.SizeX(), garden.SizeY())
      modifies this, garden.agents
      ensures garden == old(garden) && idNumber == old(idNumber) + 1
      ensures agentMinLifespan == old(agentMinLifespan) && agentMaxLifespan == old(agentMaxLifespan)
      ensures |agentList| == |old(agentList)| + 1 && agentList == old(agentList) + [agentList[|old(agentList)|]]
      ensures var a := agentList[|old(agentList)|];
        && fresh(a) && a.grass == 0 && a.id == idNumber && a.Heads()
        && a.stepsToLive == Lifespan(b.life, agentMinLifespan, agentMaxLifespan)
        && (forall i, j :: garden.InGrid(i, j) && garden.agents[i, j] != old(garden.agents[i, j]) ==> garden.agents[i, j] == a)
    {
      var a := new Agent(agentMinLifespan, agentMaxLifespan, b.headings, b.life, idNumber);
      idNumber := idNumber + 1;
      agentList := agentList + [a];
      var _ := garden.AddAgent(a, b.spots);
    }

    /** reapDeadAgents(), with plantDraws(k, t) the draw of the t-th tuft the k-th
        rabbit leaves behind: from the back of the list, every rabbit without
        steps to live leaves its cell, its grass is planted back, and it leaves
        the list. The survivors keep their order, and the result is the number
        of rabbits removed. */
    method ReapDeadAgents(plantDraws: (nat, nat) -> Draw) returns (count: int)
      requires garden.Valid()
      requires forall k :: 0 <= k < |agentList| && agentList[k].stepsToLive < 1 ==> garden.InGrid(agentList[k].x, agentList[k].y)
      modifies this, garden.agents, garden.grass
      ensures garden == old(garden) && idNumber == old(idNumber)
      ensures agentMinLifespan == old(agentMinLifespan) && agentMaxLifespan == old(agentMaxLifespan)
      ensures agentList == Survivors(old(agentList))
      ensures count == |old(agentList)| - |agentList|
      ensures Buried(old(agentList), -1)
      ensures forall i, j :: garden.InGrid(i, j) ==>
        garden.agents[i, j] == if (i, j) in DeadCells(old(agentList), -1) then null else old(garden.agents[i, j])
      ensures forall i, j :: garden.InGrid(i, j) ==>
        garden.grass[i, j] == if (i, j) in Tufted(old(agentList), -1, plantDraws, garden.SizeX(), garden.SizeY()) then 1 else old(garden.grass[i, j])
    {
      ghost var list := agentList;
      ghost var agents0 := Snapshot(garden.agents);
      ghost var grass0 := Snapshot(garden.grass);
      assert list[..|list|] == list && list[|list|..] == [];
      assert DeadCells(list, |list| - 1) == {} && Tufted(list, |list| - 1, plantDraws, garden.SizeX(), garden.SizeY()) == {};
      count := ReapAll(list, plantDraws, agents0, grass0);
      assert list[..0] == [] && list[0..] == list;
    }

    /** The loop of reapDeadAgents, from the back of list. */
    method ReapAll(ghost list: seq<Agent>, plantDraws: (nat, nat) -> Draw,
                   ghost agents0: seq<seq<Agent?>>, ghost grass0: seq<seq<int>>) returns (count: int)
      requires Reaping(list, |list| - 1, 0) && Buried(list, |list| - 1)
      requires Cleared(list, |list| - 1, plantDraws, agents0, grass0)
      modifies this, garden.agents, garden.grass
      ensures Reaping(list, -1, count) && Buried(list, -1)
      ensures Cleared(list, -1, plantDraws, agents0, grass0)
      ensures garden == old(garden) && idNumber == old(idNumber)
      ensures agentMinLifespan == old(agentMinLifespan) && agentMaxLifespan == old(agentMaxLifespan)
    {
      count := 0;
      var i := |agentList| - 1;
      while i >= 0
        invariant Reaping(list, i, count) && Buried(list, i)
        invariant Cleared(list, i, plantDraws, agents0, grass0)
        invariant garden == old(garden) && idNumber == old(idNumber)
        invariant agentMinLifespan == old(agentMinLifespan) && agentMaxLifespan == old(agentMaxLifespan)
      {
        count := ReapAt(list, i, count, plantDraws, agents0, grass0);
        i := i - 1;
      }
    }

    /** The garden after reapDeadAgents has looked at the rabbits of list past
        index i, against the grids agents0 and grass0 it started from: the cells
        of those without steps to live are empty, the cells drawn for their
        tufts have grass, and every other cell is as it was. */
    ghost predicate Cleared(list: seq<Agent>, i: int, plantDraws: (nat, nat) -> Draw,
                            agents0: seq<seq<Agent?>>, grass0: seq<seq<int>>)
      reads this`garden, garden, garden.agents, garden.grass, set a | a in list
    {
      && -1 <= i < |list|
      && garden.Valid()
      && |agents0| == |grass0| == garden.SizeX()
      && (forall p :: 0 <= p < garden.SizeX() ==> |agents0[p]| == |grass0[p]| == garden.SizeY())
      && (forall p, q :: garden.InGrid(p, q) ==>
            garden.agents[p, q] == if (p, q) in DeadCells(list, i) then null else agents0[p][q])
      && (forall p, q :: garden.InGrid(p, q) ==>
            garden.grass[p, q] == if (p, q) in Tufted(list, i, plantDraws, garden.SizeX(), garden.SizeY()) then 1 else grass0[p][q])
    }

    /** Where reapDeadAgents stands after looking at the rabbits of list past
        index i: those have been reaped, count of them removed. */
    ghost predicate Reaping(list: seq<Agent>, i: int, count: int)
      reads this, set a | a in list
    {
      && -1 <= i < |list|
      && agentList == list[..i + 1] + Survivors(list[i + 1..])
      && count == |list| - (i + 1) - |Survivors(list[i + 1..])|
    }

    /** One turn of the loop of reapDeadAgents, on the rabbit at index i. */
    method ReapAt(ghost list: seq<Agent>, i: int, count: int, plantDraws: (nat, nat) -> Draw,
                  ghost agents0: seq<seq<Agent?>>, ghost grass0: seq<seq<int>>) returns (count': int)
      requires 0 <= i && Reaping(list, i, count) && Buried(list, i)
      requires Cleared(list, i, plantDraws, agents0, grass0)
      modifies this, garden.agents, garden.grass
      ensures Reaping(list, i - 1, count') && Buried(list, i - 1)
      ensures Cleared(list, i - 1, plantDraws, agents0, grass0)
      ensures garden == old(garden) && idNumber == old(idNumber)
      ensures agentMinLifespan == old(agentMinLifespan) && agentMaxLifespan == old(agentMaxLifespan)
    {
      count' := count;
      var rgsa := agentList[i];
      SurvivorsFrom(list, i);
      assert list[..i + 1] == list[..i] + [list[i]];
      if rgsa.stepsToLive < 1 {
        BuryAt(rgsa, list, i, plantDraws, agents0, grass0);
        count' := Unlist(list, i, count);
      } else {
        assert DeadCells(list, i - 1) == DeadCells(list, i);
        assert Tufted(list, i - 1, plantDraws, garden.SizeX(), garden.SizeY()) == Tufted(list, i, plantDraws, garden.SizeX(), garden.SizeY());
      }
    }

    /** The rest of the turn on a rabbit at index i without steps to live: it
        leaves the list and is counted. */
    method Unlist(ghost list: seq<Agent>, i: int, count: int) returns (count': int)
      requires 0 <= i && Reaping(list, i, count) && agentList[i].stepsToLive < 1
      modifies this
      ensures Reaping(list, i - 1, count')
      ensures garden == old(garden) && idNumber == old(idNumber)
      ensures agentMinLifespan == old(agentMinLifespan) && agentMaxLifespan == old(agentMaxLifespan)
    {
      SurvivorsFrom(list, i);
      assert list[..i + 1] == list[..i] + [list[i]];
      assert agentList[..i] == list[..i] && agentList[i + 1..] == Survivors(list[i + 1..]);
      agentList := agentList[..i] + agentList[i + 1..];
      count' := count + 1;
    }

    /** Bury, on the rabbit at index i of list: what the loop knows of the
        buried rabbits past i now holds from i on. */
    method BuryAt(rgsa: Agent, ghost list: seq<Agent>, i: int, plantDraws: (nat, nat) -> Draw,
                  ghost agents0: seq<seq<Agent?>>, ghost grass0: seq<seq<int>>)
      requires 0 <= i < |list| && rgsa == list[i] && rgsa.stepsToLive < 1
      requires Buried(list, i) && Cleared(list, i, plantDraws, agents0, grass0)
      modifies garden.agents, garden.grass
      ensures Buried(list, i - 1) && Cleared(list, i - 1, plantDraws, agents0, grass0)
      ensures forall p, q :: garden.InGrid(p, q) ==>
        garden.agents[p, q] == (if (p, q) == (rgsa.x, rgsa.y) then null else old(garden.agents[p, q]))
      ensures forall p, q :: garden.InGrid(p, q) ==>
        garden.grass[p, q] == if (p, q) in Planted(Tufts(rgsa, i, plantDraws), garden.SizeX(), garden.SizeY()) then 1 else old(garden.grass[p, q])
    {
      Bury(rgsa, i, plantDraws);
      assert DeadCells(list, i - 1) == DeadCells(list, i) + {(rgsa.x, rgsa.y)};
      assert Tufted(list, i - 1, plantDraws, garden.SizeX(), garden.SizeY())
        == Tufted(list, i, plantDraws, garden.SizeX(), garden.SizeY()) + Planted(Tufts(rgsa, i, plantDraws), garden.SizeX(), garden.SizeY());
    }

    /** The rabbits of list past index i without steps to live have left the
        grid; the others without steps to live stand on it. */
    ghost predicate Buried(list: seq<Agent>, i: int)
      reads this`garden, garden, garden.agents, set a | a in list
    {
      && garden.Valid()
      && forall k :: 0 <= k < |list| && list[k].stepsToLive < 1 ==>
           && garden.InGrid(list[k].x, list[k].y)
           && (i < k ==> garden.agents[list[k].x, list[k].y] == null)
    }

    /** What reapDeadAgents does with the dead rabbit at index k of the list: its
        cell is freed and its grass is planted back, drawn from plantDraws(k, _):
        the drawn cells get one tuft, every other cell keeps its grass, and no
        other rabbit moves. */
    method Bury(rgsa: Agent, k: nat, plantDraws: (nat, nat) -> Draw)
      requires garden.Valid() && garden.InGrid(rgsa.x, rgsa.y)
      modifies garden.agents, garden.grass
      ensures forall i, j :: garden.InGrid(i, j) ==>
        garden.agents[i, j] == (if (i, j) == (rgsa.x, rgsa.y) then null else old(garden.agents[i, j]))
      ensures forall i, j :: garden.InGrid(i, j) ==>
        garden.grass[i, j] == if (i, j) in Planted(Tufts(rgsa, k, plantDraws), garden.SizeX(), garden.SizeY()) then 1 else old(garden.grass[i, j])
    {
      garden.RemoveAgentAt(rgsa.x, rgsa.y);
      var tufts := Tufts(rgsa, k, plantDraws);
      assert tufts[..if rgsa.grass > 0 then rgsa.grass else 0] == tufts;
      garden.PlantGrass(rgsa.grass, tufts);
    }

    /** The re-population of the step action: reap the dead, then add as many
        new rabbits, made with births, as were reaped. The list keeps its
        length: the survivors, in order, then the newcomers. */
    method Repopulate(plantDraws: (nat, nat) -> Draw, births: seq<Birth>) returns (deadAgents: int)
      requires garden.Valid()
      requires forall k :: 0 <= k < |agentList| && agentList[k].stepsToLive < 1 ==> garden.InGrid(agentList[k].x, agentList[k].y)
      requires |births| >= |agentList|
      requires forall k :: 0 <= k < |births| ==> Feasible(births[k], garden.SizeX(), garden.SizeY())
      modifies this, garden.agents, garden.grass
      ensures garden == old(garden) && |agentList| == |old(agentList)|
      ensures forall a :: a in old(agentList) ==> a.stepsToLive == old(a.stepsToLive)
      ensures deadAgents == |old(agentList)| - |Survivors(old(agentList))|
      ensures agentList[..|agentList| - deadAgents] == Survivors(old(agentList))
      ensures forall k :: |agentList| - deadAgents <= k < |agentList| ==> fresh(agentList[k]) && agentList[k].grass == 0
    {
      deadAgents := ReapDeadAgents(plantDraws);
      ghost var survivors := agentList;
      var i := 0;
      while i < deadAgents
        invariant 0 <= i <= deadAgents
        invariant garden == old(garden) && garden.Valid()
        invariant |agentList| == |survivors| + i && agentList[..|survivors|] == survivors
        invariant forall k :: |survivors| <= k < |agentList| ==> fresh(agentList[k]) && agentList[k].grass == 0
      {
        AddNewAgent(births[i]);
        i := i + 1;
      }
    }

    /** The step action of the schedule, with the list shuffled into order and
        headings[k] the draws of the k-th rabbit to step: every rabbit steps,
        then the dead are replaced. Every rabbit loses one step of life each
        time it stands in the list. The list keeps its length: the rabbits of
        order that still live, in order, then newcomers. */
    method StepAction(order: seq<Agent>, headings: seq<seq<Draw>>, plantDraws: (nat, nat) -> Draw, births: seq<Birth>)
      returns (deadAgents: int)
      requires Settled() && multiset(order) == multiset(agentList)
      requires |headings| >= |agentList| && forall k :: 0 <= k < |headings| ==> HasMove(headings[k])
      requires |births| >= |agentList|
      requires forall k :: 0 <= k < |births| ==> Feasible(births[k], garden.SizeX(), garden.SizeY())
      modifies this, garden.agents, garden.grass, garden.Occupants()
      ensures garden == old(garden) && |agentList| == |old(agentList)| && 0 <= deadAgents <= |agentList|
      ensures forall a :: a in old(agentList) ==> a.stepsToLive == old(a.stepsToLive) - multiset(old(agentList))[a]
      ensures agentList[..|agentList| - deadAgents] == Survivors(order)
      ensures forall k :: 0 <= k < |agentList| - deadAgents ==> agentList[k] in old(agentList) && agentList[k].stepsToLive > 0
      ensures forall k :: |agentList| - deadAgents <= k < |agentList| ==> fresh(agentList[k]) && agentList[k].grass == 0
    {
      SameRabbits(order, agentList);
      agentList := order;
      StepEvery(headings);
      assert garden == old(garden) && agentList == order;
      ghost var stepped := agentList;
      deadAgents := Repopulate(plantDraws, births);
      SurvivorsMembers(stepped);
      assert forall k :: 0 <= k < |agentList| - deadAgents ==> agentList[k] in Survivors(stepped);
    }

    /** The loop of the step action: every listed rabbit steps, in list order,
        and loses one step of life each time it stands in the list. */
    method StepEvery(headings: seq<seq<Draw>>)
      requires Settled()
      requires |headings| >= |agentList| && forall k :: 0 <= k < |headings| ==> HasMove(headings[k])
      modifies garden.agents, garden.grass, garden.Occupants()
      ensures garden == old(garden) && Settled()
      ensures forall a :: a in agentList ==> a.stepsToLive == old(a.stepsToLive) - multiset(agentList)[a]
    {
      ghost var occupants := garden.Occupants();
      var i := 0;
      while i < |agentList|
        invariant 0 <= i <= |agentList|
        invariant garden == old(garden) && Settled()
        invariant forall p, q :: garden.InGrid(p, q) && garden.agents[p, q] != null ==> garden.agents[p, q] in occupants
        invariant forall a :: a in agentList ==> a.stepsToLive == old(a.stepsToLive) - multiset(agentList[..i])[a]
      {
        StepAgent(agentList[i], headings[i], occupants);
        assert agentList[..i + 1] == agentList[..i] + [agentList[i]];
        i := i + 1;
      }
      assert agentList[..i] == agentList;
    }

    /** One rabbit of a settled list steps: it loses one step of life and no
        other rabbit does; the list stays settled, and no rabbit that was not on
        the grid before comes onto it. */
    method StepAgent(rgsa: Agent, headings: seq<Draw>, ghost occupants: set<Agent?>)
      requires Settled() && rgsa in agentList && HasMove(headings)
      requires forall p, q :: garden.InGrid(p, q) && garden.agents[p, q] != null ==> garden.agents[p, q] in occupants
      modifies garden.agents, garden.grass, occupants
      ensures Settled()
      ensures rgsa.stepsToLive == old(rgsa.stepsToLive) - 1
      ensures forall a :: a in agentList && a != rgsa ==> a.stepsToLive == old(a.stepsToLive)
      ensures forall p, q :: garden.InGrid(p, q) && garden.agents[p, q] != null ==> garden.agents[p, q] in occupants
    {
      rgsa.Step(headings);
    }

    /** countLivingAgents(): the number of listed rabbits with steps to live. */
    method CountLivingAgents() returns (livingAgents: int)
      ensures livingAgents == |Survivors(agentList)|
    {
      livingAgents := 0;
      var i := 0;
      while i < |agentList|
        invariant 0 <= i <= |agentList|
        invariant livingAgents == |Survivors(agentList[..i])|
      {
        SurvivorsAppend(agentList[..i], agentList[i]);
        assert agentList[..i + 1] == agentList[..i] + [agentList[i]];
        if agentList[i].stepsToLive > 0 {
          livingAgents := livingAgents + 1;
        }
        i := i + 1;
      }
      assert agentList[..i] == agentList;
    }
  }
}
