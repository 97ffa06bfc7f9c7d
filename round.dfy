/**
 * One step of the model played on values. The agents of the step-start set
 * are listed in activation order, each by the values its turn reads and
 * writes, next to the resource table; every turn sees the table as the
 * earlier turns left it. The in-place step of NicheModel is proved to leave
 * exactly the values Play computes.
 */
module Round {
  import opened Optional
  import opened Torus
  import opened Economy
  import Stats

  /**
   * An agent as values: an organism's energy, strategy and cell, or a
   * structure's lifespan and cell. The cell is None once the agent has left
   * the grid.
   */
  datatype Agent =
    | OrganismState(energy: real, strategy: Strategy, pos: Option<Cell>)
    | StructureState(lifespan: int, pos: Option<Cell>)

  /** A newborn as values: its energy, its strategy and the cell it is put on. */
  datatype Child = Child(energy: real, strategy: Strategy, pos: Cell)

  /** What one turn leaves: the agent's new values, the new table and the newborn, if any. */
  datatype Outcome = Outcome(agent: Agent, grid: seq<seq<real>>, child: Option<Child>)

  /** A step in progress: the agents in activation order, the table, and the newborns in birth order. */
  datatype World = World(agents: seq<Agent>, grid: seq<seq<real>>, born: seq<Child>)

  /** The table with cell c set to v. */
  function Put(grid: seq<seq<real>>, c: Cell, v: real): seq<seq<real>>
    requires 0 <= c.x < |grid| && 0 <= c.y < |grid[c.x]|
  {
    grid[c.x := grid[c.x][c.y := v]]
  }

  /** Setting one cell keeps the table's shape and changes that cell alone. */
  lemma PutCells(grid: seq<seq<real>>, c: Cell, v: real, width: nat, height: nat)
    requires Stats.Shaped(grid, width, height) && InBounds(c, width, height)
    ensures Stats.Shaped(Put(grid, c, v), width, height)
    ensures forall x, y :: 0 <= x < width && 0 <= y < height ==>
      Put(grid, c, v)[x][y] == if Cell(x, y) == c then v else grid[x][y]
  {
  }

  /** Two width x height tables with the same cells are the same table. */
  lemma GridsEqual(g: seq<seq<real>>, h: seq<seq<real>>, width: nat, height: nat)
    requires Stats.Shaped(g, width, height) && Stats.Shaped(h, width, height)
    requires forall x, y :: 0 <= x < width && 0 <= y < height ==> g[x][y] == h[x][y]
    ensures g == h
  {
    assert forall x :: 0 <= x < width ==> g[x] == h[x];
  }

  /**
   * The turn of one agent on a width x height table, with neighbour choice
   * k and mutation draw `draw`. An organism moves to its k-th neighbour and
   * then lives or dies as Activate says, eating from and reproducing on the
   * cell it moved to; a structure decays. An organism already off the grid
   * is left as it is.
   */
  function Act(a: Agent, grid: seq<seq<real>>, k: nat, draw: real, rate: real, width: nat, height: nat): (r: Outcome)
    requires k < |Offsets| && Stats.Shaped(grid, width, height)
    ensures Stats.Shaped(r.grid, width, height)
    ensures a.OrganismState? <==> r.agent.OrganismState?
    ensures a.OrganismState? ==> r.agent.strategy == a.strategy
    ensures a.StructureState? ==> r.grid == grid && r.child.None?
  {
    match a
    case OrganismState(energy, strategy, pos) =>
      if pos.None? || width == 0 || height == 0 then Outcome(a, grid, None)
      else
        var t := Neighbour(pos.value, k, width, height);
        (match Activate(energy, grid[t.x][t.y], strategy, draw, rate)
         case Died(e) => Outcome(OrganismState(e, strategy, None), grid, None)
         case Lived(e, cell, newborn) =>
           PutCells(grid, t, cell, width, height);
           var child := if newborn.Some? then Some(Child(newborn.value.energy, newborn.value.strategy, t)) else None;
           Outcome(OrganismState(e, strategy, Some(t)), Put(grid, t, cell), child))
    case StructureState(lifespan, pos) =>
      match Decay(lifespan)
      case None => Outcome(StructureState(lifespan - 1, None), grid, None)
      case Some(l) => Outcome(StructureState(l, pos), grid, None)
  }

  /** The newborn of a turn as a sequence: empty when there was none. */
  function Births(c: Option<Child>): seq<Child>
  {
    if c.Some? then [c.value] else []
  }

  /** The turn of agent i of the world, which touches no other agent. */
  function Turn(w: World, i: nat, k: nat, draw: real, rate: real, width: nat, height: nat): (v: World)
    requires i < |w.agents| && k < |Offsets| && Stats.Shaped(w.grid, width, height)
    ensures |v.agents| == |w.agents| && Stats.Shaped(v.grid, width, height)
    ensures forall j :: 0 <= j < |w.agents| && j != i ==> v.agents[j] == w.agents[j]
  {
    var r := Act(w.agents[i], w.grid, k, draw, rate, width, height);
    World(w.agents[i := r.agent], r.grid, w.born + Births(r.child))
  }

  /** The inputs of the first n turns are there: a neighbour choice below 8 and a draw for each. */
  predicate Scheduled(w: World, moves: seq<nat>, draws: seq<real>, n: nat)
  {
    && n <= |w.agents| && n <= |moves| && n <= |draws|
    && forall j :: 0 <= j < n ==> moves[j] < |Offsets|
  }

  /** The first n turns of a step, in activation order, from w. */
  function Play(w: World, moves: seq<nat>, draws: seq<real>, rate: real, width: nat, height: nat, n: nat): (v: World)
    requires Scheduled(w, moves, draws, n) && Stats.Shaped(w.grid, width, height)
    ensures |v.agents| == |w.agents| && Stats.Shaped(v.grid, width, height)
    decreases n
  {
    if n == 0 then w
    else Turn(Play(w, moves, draws, rate, width, height, n - 1), n - 1, moves[n - 1], draws[n - 1], rate, width, height)
  }

  /** Turns i to n - 1, in order, from w: the rest of a step whose first i turns led to w. */
  function Rest(w: World, moves: seq<nat>, draws: seq<real>, rate: real, width: nat, height: nat, i: nat, n: nat): (v: World)
    requires i <= n && Scheduled(w, moves, draws, n) && Stats.Shaped(w.grid, width, height)
    ensures |v.agents| == |w.agents| && Stats.Shaped(v.grid, width, height)
    decreases n - i
  {
    if i == n then w
    else Rest(Turn(w, i, moves[i], draws[i], rate, width, height), moves, draws, rate, width, height, i + 1, n)
  }

  /** The first i turns followed by the rest are the whole step. */
  lemma {:induction false} PlayThenRest(w: World, moves: seq<nat>, draws: seq<real>, rate: real,
                                        width: nat, height: nat, i: nat, n: nat)
    requires i <= n && Scheduled(w, moves, draws, n) && Stats.Shaped(w.grid, width, height)
    ensures Rest(Play(w, moves, draws, rate, width, height, i), moves, draws, rate, width, height, i, n)
         == Play(w, moves, draws, rate, width, height, n)
    decreases n - i
  {
    hide Act;
    if i < n {
      PlayThenRest(w, moves, draws, rate, width, height, i + 1, n);
    }
  }

  /** The agents whose turn has not come yet still hold their values from the start of the step. */
  lemma {:induction false} PlayLeavesLater(w: World, moves: seq<nat>, draws: seq<real>, rate: real,
                                           width: nat, height: nat, n: nat)
    requires Scheduled(w, moves, draws, n) && Stats.Shaped(w.grid, width, height)
    ensures forall j :: n <= j < |w.agents| ==> Play(w, moves, draws, rate, width, height, n).agents[j] == w.agents[j]
  {
    hide Act;
    if n > 0 {
      PlayLeavesLater(w, moves, draws, rate, width, height, n - 1);
    }
  }

  /**
   * After n turns, agent j < n holds what its own turn left: Act applied to
   * its values from the start of the step and to the table as the j turns
   * before it left it. The later turns do not touch it.
   */
  lemma {:induction false} PlayFinal(w: World, moves: seq<nat>, draws: seq<real>, rate: real,
                                     width: nat, height: nat, n: nat, j: nat)
    requires Scheduled(w, moves, draws, n) && Stats.Shaped(w.grid, width, height) && j < n
    ensures Play(w, moves, draws, rate, width, height, n).agents[j]
         == Act(w.agents[j], Play(w, moves, draws, rate, width, height, j).grid, moves[j], draws[j],
                rate, width, height).agent
  {
    hide Act;
    if n == j + 1 {
      PlayLeavesLater(w, moves, draws, rate, width, height, j);
    } else {
      PlayFinal(w, moves, draws, rate, width, height, n - 1, j);
    }
  }

  /**
   * An organism on the grid at the start of the step is alive after its
   * turn exactly when its energy exceeded the move cost. It then stands on
   * its chosen neighbour with the energy Activate gives on that cell as the
   * earlier turns left it; whatever the later turns do.
   */
  lemma OrganismFate(w: World, moves: seq<nat>, draws: seq<real>, rate: real, width: nat, height: nat,
                     n: nat, j: nat)
    requires Scheduled(w, moves, draws, n) && Stats.Shaped(w.grid, width, height) && j < n
    requires 0 < width && 0 < height
    requires w.agents[j].OrganismState? && w.agents[j].pos.Some?
    ensures
      var after := Play(w, moves, draws, rate, width, height, n).agents[j];
      && after.OrganismState? && after.strategy == w.agents[j].strategy
      && (after.pos.Some? <==> MoveCost < w.agents[j].energy)
      && (after.pos.Some? ==> after.pos.value == Neighbour(w.agents[j].pos.value, moves[j], width, height))
      && (after.pos.None? ==> after.energy == w.agents[j].energy - MoveCost)
      && (after.pos.Some? ==>
            var t := Neighbour(w.agents[j].pos.value, moves[j], width, height);
            after.energy == Activate(w.agents[j].energy, Play(w, moves, draws, rate, width, height, j).grid[t.x][t.y],
                                     w.agents[j].strategy, draws[j], rate).energy)
  {
    PlayFinal(w, moves, draws, rate, width, height, n, j);
  }

  /**
   * A structure on the grid at the start of the step has lost one lifespan
   * after its turn and is on the grid exactly while that stays positive.
   */
  lemma StructureFate(w: World, moves: seq<nat>, draws: seq<real>, rate: real, width: nat, height: nat,
                      n: nat, j: nat)
    requires Scheduled(w, moves, draws, n) && Stats.Shaped(w.grid, width, height) && j < n
    requires w.agents[j].StructureState? && w.agents[j].pos.Some?
    ensures
      var after := Play(w, moves, draws, rate, width, height, n).agents[j];
      && after.StructureState? && after.lifespan == w.agents[j].lifespan - 1
      && (after.pos.Some? <==> 0 < after.lifespan)
  {
    PlayFinal(w, moves, draws, rate, width, height, n, j);
  }

  /** Every cell of the table lies in [0, hi] and is at most its value in `start`. */
  predicate Below(g: seq<seq<real>>, start: seq<seq<real>>, hi: real)
    requires |g| == |start| && forall x :: 0 <= x < |g| ==> |g[x]| == |start[x]|
  {
    forall x, y :: 0 <= x < |g| && 0 <= y < |g[x]| ==> 0.0 <= g[x][y] <= start[x][y] && start[x][y] <= hi
  }

  /**
   * Turns never raise a cell: a table whose cells lie in [0, hi] keeps them
   * there, each at most its value at the start of the step.
   */
  lemma {:induction false} PlayLowersCells(w: World, moves: seq<nat>, draws: seq<real>, rate: real,
                                           width: nat, height: nat, n: nat, hi: real)
    requires Scheduled(w, moves, draws, n) && Stats.Shaped(w.grid, width, height)
    requires forall x, y :: 0 <= x < width && 0 <= y < height ==> 0.0 <= w.grid[x][y] <= hi
    ensures Below(Play(w, moves, draws, rate, width, height, n).grid, w.grid, hi)
  {
    if n > 0 {
      PlayLowersCells(w, moves, draws, rate, width, height, n - 1, hi);
    }
  }

  /**
   * Every newborn of the step carries at least half the reproduction
   * threshold, and there is at most one per turn.
   */
  lemma {:induction false} PlayNewborns(w: World, moves: seq<nat>, draws: seq<real>, rate: real,
                                        width: nat, height: nat, n: nat)
    requires Scheduled(w, moves, draws, n) && Stats.Shaped(w.grid, width, height)
    requires forall b :: b in w.born ==> ReproductionThreshold / 2.0 <= b.energy
    ensures var v := Play(w, moves, draws, rate, width, height, n);
      && |v.born| <= |w.born| + n
      && forall b :: b in v.born ==> ReproductionThreshold / 2.0 <= b.energy
  {
    if n > 0 {
      PlayNewborns(w, moves, draws, rate, width, height, n - 1);
    }
  }
}
