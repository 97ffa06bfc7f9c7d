/**
 * The agents and the model of the niche-construction simulation as objects
 * updated in place. An Organism pays to move, eats from the cell it lands on
 * and splits its energy with a newborn; a Structure counts its lifespan
 * down; the NicheModel owns the resource array and the agent set and
 * activates every agent once per step in a given order.
 *
 * The spatial index is each agent's `pos`: Some(cell) while it is placed on
 * the grid, None once it has been removed. The model's one agent set is kept
 * as two sets, `organisms` and `structures`, one per kind of agent.
 */
module Niche {
  import opened Optional
  import opened Torus
  import opened Economy
  import Stats
  import Round

  /** A member of the agent set: an organism or a structure. */
  datatype AgentRef = OrganismRef(organism: Organism) | StructureRef(structure: Structure)
  {
    /** The object the reference stands for. */
    function Agent(): object
    {
      match this
      case OrganismRef(o) => o
      case StructureRef(s) => s
    }
  }

  /** The values of an agent that a turn reads and writes. */
  ghost function StateOf(a: AgentRef): Round.Agent
    reads a.Agent()
  {
    match a
    case OrganismRef(o) => Round.OrganismState(o.energy, o.strategy, o.pos)
    case StructureRef(s) => Round.StructureState(s.lifespan, s.pos)
  }

  /** The organism carries the values of the newborn c. */
  ghost predicate Embodies(o: Organism, c: Round.Child)
    reads o
  {
    o.energy == c.energy && o.strategy == c.strategy && o.pos == Some(c.pos)
  }

  /** One row of the data collector: the values of the four reporters. */
  datatype Report = Report(cooperators: nat, freeloaders: nat, meanEnergy: real, meanResource: real)

  /** The energies of a set of organisms added up. */
  ghost function EnergySum(s: set<Organism>): real
    reads s
  {
    if s == {} then 0.0 else var o :| o in s; o.energy + EnergySum(s - {o})
  }

  /** Organisms that all hold positive energy hold positive energy together. */
  lemma {:induction false} EnergySumPositive(s: set<Organism>)
    requires forall o :: o in s ==> 0.0 < o.energy
    ensures 0.0 <= EnergySum(s)
    ensures s != {} ==> 0.0 < EnergySum(s)
  {
    if s != {} {
      var o :| o in s && EnergySum(s) == o.energy + EnergySum(s - {o});
      EnergySumPositive(s - {o});
    }
  }

  /**
   * A list without repetitions whose members all lie in a set of its own
   * size lists the whole set.
   */
  lemma {:induction false} ListCoversSet<T>(f: seq<T>, s: set<T>)
    requires |s| == |f|
    requires forall i, j :: 0 <= i < j < |f| ==> f[i] != f[j]
    requires forall i :: 0 <= i < |f| ==> f[i] in s
    ensures forall x :: x in s ==> x in f
  {
    if f != [] {
      var last := f[|f| - 1];
      var rest := f[..|f| - 1];
      assert forall i :: 0 <= i < |rest| ==> rest[i] == f[i];
      ListCoversSet(rest, s - {last});
      forall x | x in s
        ensures x in f
      {
        if x != last {
          assert x in rest;
          var i :| 0 <= i < |rest| && rest[i] == x;
          assert f[i] == x;
        }
      }
    }
  }

  /** The newborn of a turn as a set: empty when there was none. */
  function Born(child: Organism?): set<Organism>
  {
    if child == null then {} else {child}
  }

  /**
   * A step under way: the activation order, the values the turns taken so
   * far have reached, and the newborn objects in birth order.
   */
  datatype Trace = Trace(order: seq<AgentRef>, world: Round.World, kids: seq<Organism>)

  class Organism {
    const model: NicheModel
    const strategy: Strategy
    var energy: real
    var pos: Option<Cell>

    /** A new organism, not yet placed on the grid nor added to the agent set. */
    constructor (model: NicheModel, strategy: Strategy := Cooperator, energy: real := DefaultEnergy)
      ensures this.model == model && this.strategy == strategy && this.energy == energy
      ensures pos == None
    {
      this.model := model;
      this.strategy := strategy;
      this.energy := energy;
      pos := None;
    }

    /** In the agent set and placed on a cell of the grid the resource array covers. */
    ghost predicate Placed()
      reads this`pos, model`organisms
    {
      && this in model.organisms
      && pos.Some? && InBounds(pos.value, model.width, model.height)
      && model.environment.Length0 == model.width && model.environment.Length1 == model.height
    }

    /**
     * One activation: move, and unless the move killed the organism, consume
     * and then reproduce. The outcome is the one Activate computes from the
     * energy before the step and the resource of the cell moved to.
     */
    method Step(k: nat, draw: real) returns (ghost child: Organism?)
      requires k < |Offsets| && 0.0 <= draw < 1.0 && Placed()
      modifies this, model`organisms, model.environment
      ensures old(model.Valid()) ==> model.Valid()
      ensures
        var target := Neighbour(old(pos).value, k, model.width, model.height);
        var a := Activate(old(energy), old(model.environment[target.x, target.y]), strategy, draw, model.mutationRate);
        match a
        case Died(e) =>
          && energy == e && pos == None && child == null
          && model.organisms == old(model.organisms) - {this}
          && unchanged(model.environment)
        case Lived(e, cell, newborn) =>
          && energy == e && pos == Some(target)
          && model.environment[target.x, target.y] == cell
          && (forall i, j :: 0 <= i < model.width && 0 <= j < model.height && Cell(i, j) != target ==>
                model.environment[i, j] == old(model.environment[i, j]))
          && (newborn.None? ==> child == null && model.organisms == old(model.organisms))
          && (newborn.Some? ==>
                && child != null && fresh(child)
                && child.energy == newborn.value.energy && child.strategy == newborn.value.strategy
                && child.pos == pos && child.model == model
                && model.organisms == old(model.organisms) + {child})
    {
      var status := Move(k);
      child := null;
      if status >= 0 {
        Consume();
        child := Reproduce(draw);
      }
    }

    /**
     * Pay the move cost; at or below zero energy die and report -1, otherwise
     * jump to the k-th Moore neighbour and report 0.
     */
    method Move(k: nat) returns (status: int)
      requires k < |Offsets| && Placed()
      modifies this, model`organisms
      ensures energy == old(energy) - MoveCost
      ensures status == -1 || status == 0
      ensures status == -1 <==> energy <= 0.0
      ensures status == -1 ==> pos == None && model.organisms == old(model.organisms) - {this}
      ensures status == 0 ==>
        && pos == Some(Neighbour(old(pos).value, k, model.width, model.height))
        && model.organisms == old(model.organisms) && Placed()
      ensures old(model.Valid()) ==> model.Valid()
    {
      energy := energy - MoveCost;
      if energy <= 0.0 {
        Die();
        return -1;
      }
      pos := Some(Neighbour(pos.value, k, model.width, model.height));
      return 0;
    }

    /** Leave the grid and the agent set. */
    method Die()
      requires this in model.organisms && pos.Some?
      modifies this`pos, model`organisms
      ensures pos == None && model.organisms == old(model.organisms) - {this}
    {
      pos := None;
      model.organisms := model.organisms - {this};
    }

    /** The environment-modifying action: it does nothing and reports -1. */
    method ModifyEnvironment() returns (status: int)
      ensures status == -1
    {
      return -1;
    }

    /**
     * Take the smaller of the cell's resource and one bite from the cell the
     * organism stands on and add it to its energy.
     */
    method Consume()
      requires Placed()
      modifies this`energy, model.environment
      ensures Placed()
      ensures
        var c := pos.value;
        && energy == old(energy) + Grant(old(model.environment[c.x, c.y]))
        && energy + model.environment[c.x, c.y] == old(energy) + old(model.environment[c.x, c.y])
      ensures forall i, j :: 0 <= i < model.width && 0 <= j < model.height && Cell(i, j) != pos.value ==>
        model.environment[i, j] == old(model.environment[i, j])
      ensures old(model.Valid()) ==> model.Valid()
    {
      var c := pos.value;
      var consumed := Grant(model.environment[c.x, c.y]);
      energy := energy + consumed;
      model.environment[c.x, c.y] := model.environment[c.x, c.y] - consumed;
    }

    /**
     * At the reproduction threshold, halve the energy and add a newborn with
     * the halved energy on the same cell; its strategy is swapped when the
     * draw falls below the mutation rate.
     */
    method Reproduce(draw: real) returns (ghost child: Organism?)
      requires 0.0 <= draw < 1.0 && Placed()
      modifies this`energy, model`organisms
      ensures Placed()
      ensures old(energy) < ReproductionThreshold ==>
        child == null && energy == old(energy) && model.organisms == old(model.organisms)
      ensures ReproductionThreshold <= old(energy) ==>
        && child != null && fresh(child)
        && child.energy == energy && energy + child.energy == old(energy)
        && child.strategy == ChildStrategy(strategy, draw, model.mutationRate)
        && child.pos == pos && child.model == model
        && model.organisms == old(model.organisms) + {child}
      ensures old(model.Valid()) ==> model.Valid()
    {
      child := null;
      if ReproductionThreshold <= energy {
        energy := energy / 2.0;
        var newStrategy := if draw < model.mutationRate then Flip(strategy) else strategy;
        var newborn := new Organism(model, newStrategy, energy);
        newborn.pos := pos;
        model.organisms := model.organisms + {newborn};
        child := newborn;
      }
    }
  }

  class Structure {
    const model: NicheModel
    var lifespan: int
    var pos: Option<Cell>

    /** A new structure, not yet placed on the grid nor added to the agent set. */
    constructor (model: NicheModel, lifespan: int := DefaultLifespan)
      ensures this.model == model && this.lifespan == lifespan && pos == None
    {
      this.model := model;
      this.lifespan := lifespan;
      pos := None;
    }

    /**
     * Count the lifespan down by one; once it is at or below zero, leave the
     * grid and the agent set. The outcome is the one Decay computes.
     */
    method Step()
      requires this in model.structures && pos.Some?
      modifies this, model`structures
      ensures lifespan == old(lifespan) - 1
      ensures lifespan <= 0 ==> pos == None && model.structures == old(model.structures) - {this}
      ensures 0 < lifespan ==> pos == old(pos) && model.structures == old(model.structures)
      ensures Decay(old(lifespan)) == if this in model.structures then Some(lifespan) else None
      ensures old(model.Valid()) ==> model.Valid()
    {
      lifespan := lifespan - 1;
      if lifespan <= 0 {
        pos := None;
        model.structures := model.structures - {this};
      }
    }
  }

  class NicheModel {
    const width: nat
    const height: nat
    const nAgents: nat
    const mutationRate: real
    /** The width x height resource array. */
    const environment: array2<real>
    var organisms: set<Organism>
    var structures: set<Structure>
    /** The organisms the constructor seeded, in seeding order. */
    ghost var founders: seq<Organism>
    /** The rows the data collector has recorded, one per non-empty step. */
    ghost var reports: seq<Report>

    /**
     * The model's invariant: the array covers the grid, every cell holds
     * between 0 and the initial resource, and every agent in the set is
     * placed on the grid; every organism in it holds positive energy.
     */
    ghost predicate Valid()
      reads this`organisms, this`structures, organisms, structures, environment
    {
      && environment.Length0 == width && environment.Length1 == height
      && (forall i, j :: 0 <= i < width && 0 <= j < height ==> 0.0 <= environment[i, j] <= InitialResource)
      && (forall o :: o in organisms ==>
            o.model == this && o.pos.Some? && InBounds(o.pos.value, width, height) && 0.0 < o.energy)
      && (forall s :: s in structures ==> s.model == this && s.pos.Some? && InBounds(s.pos.value, width, height))
    }

    /**
     * Fill the width x height array with the initial resource and seed
     * nAgents organisms with default energy; the i-th gets strategies[i] and
     * is placed on (xs[i], ys[i]).
     */
    constructor (strategies: seq<Strategy>, xs: seq<int>, ys: seq<int>,
                 nAgents: nat := 50, width: nat := 20, height: nat := 20, mutationRate: real := 0.01)
      requires |strategies| == nAgents && |xs| == nAgents && |ys| == nAgents
      requires forall i :: 0 <= i < nAgents ==> 0 <= xs[i] < width && 0 <= ys[i] < height
      ensures Valid()
      ensures this.width == width && this.height == height
      ensures this.nAgents == nAgents && this.mutationRate == mutationRate
      ensures fresh(environment)
      ensures forall i, j :: 0 <= i < width && 0 <= j < height ==> environment[i, j] == InitialResource
      ensures structures == {} && reports == []
      ensures |founders| == nAgents && |organisms| == nAgents
      ensures forall i, j :: 0 <= i < j < nAgents ==> founders[i] != founders[j]
      ensures forall o :: o in organisms ==> o in founders
      ensures forall i :: 0 <= i < nAgents ==>
        && fresh(founders[i]) && founders[i] in organisms
        && founders[i].strategy == strategies[i] && founders[i].energy == DefaultEnergy
        && founders[i].pos == Some(Cell(xs[i], ys[i]))
    {
      this.width := width;
      this.height := height;
      this.nAgents := nAgents;
      this.mutationRate := mutationRate;
      environment := new real[width, height]((i, j) => InitialResource);
      organisms := {};
      structures := {};
      founders := [];
      reports := [];
      new;
      var n := 0;
      while n < nAgents
        invariant n == |founders| <= nAgents
        invariant Valid() && SeededFrom(strategies, xs, ys)
        invariant structures == {} && reports == []
        invariant forall i, j :: 0 <= i < width && 0 <= j < height ==> environment[i, j] == InitialResource
        invariant forall i :: 0 <= i < |founders| ==> fresh(founders[i])
      {
        var agent := SeedOrganism(n, strategies, xs, ys);
        n := n + 1;
      }
      ListCoversSet(founders, organisms);
    }

    /**
     * The organisms seeded so far are founders, all different, and the agent
     * set holds exactly them: the i-th has strategies[i], the default energy
     * and the cell (xs[i], ys[i]).
     */
    ghost predicate SeededFrom(strategies: seq<Strategy>, xs: seq<int>, ys: seq<int>)
      reads this, founders
    {
      && |founders| <= |strategies| && |founders| <= |xs| && |founders| <= |ys|
      && |organisms| == |founders|
      && (forall i, j :: 0 <= i < j < |founders| ==> founders[i] != founders[j])
      && (forall i :: 0 <= i < |founders| ==>
            && founders[i] in organisms
            && founders[i].strategy == strategies[i] && founders[i].energy == DefaultEnergy
            && founders[i].pos == Some(Cell(xs[i], ys[i])))
    }

    /**
     * One round of the seeding loop: the next organism, with strategy
     * strategies[n] and the default energy, placed on (xs[n], ys[n]) and
     * added to the agent set, where n organisms have been seeded so far.
     */
    method SeedOrganism(n: nat, strategies: seq<Strategy>, xs: seq<int>, ys: seq<int>) returns (agent: Organism)
      requires Valid() && SeededFrom(strategies, xs, ys) && n == |founders|
      requires n < |strategies| && n < |xs| && n < |ys|
      requires InBounds(Cell(xs[n], ys[n]), width, height)
      modifies this`organisms, this`founders
      ensures Valid() && SeededFrom(strategies, xs, ys)
      ensures fresh(agent) && founders == old(founders) + [agent]
      ensures organisms == old(organisms) + {agent}
    {
      ghost var seeded := founders;
      agent := new Organism(this, strategies[n]);
      assert forall i :: 0 <= i < n ==> seeded[i] != agent;
      agent.pos := Some(Cell(xs[n], ys[n]));
      assert agent !in organisms;
      organisms := organisms + {agent};
      founders := founders + [agent];
      assert forall i :: 0 <= i < n ==> founders[i] == seeded[i];
    }

    /** No agent appears twice in `order`. */
    predicate Distinct(order: seq<AgentRef>) {
      forall i, j :: 0 <= i < j < |order| ==> order[i] != order[j]
    }

    /** The agent is in the agent set. */
    ghost predicate Present(a: AgentRef)
      reads this`organisms, this`structures
    {
      match a
      case OrganismRef(o) => o in organisms
      case StructureRef(s) => s in structures
    }

    /** `order` lists agents of the agent set, none twice. */
    ghost predicate Listed(order: seq<AgentRef>)
      reads this
    {
      Distinct(order) && forall i :: 0 <= i < |order| ==> Present(order[i])
    }

    /**
     * `order` lists the agents of the agent set, each exactly once: the
     * shuffled activation order.
     */
    ghost predicate ActivationOrder(order: seq<AgentRef>)
      reads this
    {
      && Listed(order)
      && (forall o :: o in organisms ==> OrganismRef(o) in order)
      && (forall s :: s in structures ==> StructureRef(s) in order)
    }

    /**
     * Activate one agent of the set: an organism steps with neighbour choice
     * k and draw `draw`, a structure counts its lifespan down. The agent, the
     * array and the newborn `child` end up as Round.Act computes from the
     * agent's values and the array before; no other agent changes.
     */
    method ActivateAgent(a: AgentRef, k: nat, draw: real) returns (ghost child: Organism?)
      requires Valid() && Present(a) && k < |Offsets| && 0.0 <= draw < 1.0
      modifies this`organisms, this`structures, environment, {a.Agent()}
      ensures Valid()
      ensures
        var r := Round.Act(old(StateOf(a)), old(Resources()), k, draw, mutationRate, width, height);
        && StateOf(a) == r.agent && Resources() == r.grid
        && (Present(a) <==> r.agent.pos.Some?)
        && (child == null <==> r.child.None?)
        && (child != null ==> fresh(child) && child.model == this && Embodies(child, r.child.value))
      ensures organisms <= old(organisms) + Born(child) && Born(child) <= organisms
      ensures forall o :: o in old(organisms) && OrganismRef(o) != a ==> o in organisms
      ensures structures <= old(structures)
      ensures forall s :: s in old(structures) && StructureRef(s) != a ==> s in structures
    {
      match a {
        case OrganismRef(o) =>
          ghost var target := Neighbour(o.pos.value, k, width, height);
          ghost var before := Resources();
          child := o.Step(k, draw);
          ghost var r := Round.Act(old(StateOf(a)), before, k, draw, mutationRate, width, height);
          if o.pos.Some? {
            Round.PutCells(before, target, environment[target.x, target.y], width, height);
            Round.GridsEqual(Resources(), r.grid, width, height);
          }
        case StructureRef(s) =>
          s.Step();
          child := null;
      }
    }

    /** The objects `order` refers to. */
    function Agents(order: seq<AgentRef>): set<object>
    {
      set i | 0 <= i < |order| :: order[i].Agent()
    }

    /** The values of every agent of `order`. */
    ghost function States(order: seq<AgentRef>): (s: seq<Round.Agent>)
      reads Agents(order)
      ensures |s| == |order| && forall j :: 0 <= j < |order| ==> s[j] == StateOf(order[j])
    {
      seq(|order|, j requires 0 <= j < |order| reads Agents(order) => StateOf(order[j]))
    }

    /**
     * The objects match the values of the trace t: each agent of its order
     * holds its values there and is in the agent set exactly while it is on
     * the grid, the array holds the table, each newborn object holds the
     * values of its newborn and is in the set, and the set holds nothing
     * else. Contracts write `Matches(t) == true`: the comparison keeps the
     * verifier from splitting the predicate into its conjuncts, one proof
     * goal each, which keeps the proofs of the step small.
     */
    ghost predicate Matches(t: Trace)
      reads this`organisms, this`structures, environment, Agents(t.order), set k | k in t.kids
    {
      && |t.world.agents| == |t.order| && |t.kids| == |t.world.born|
      && Resources() == t.world.grid
      && (forall j :: 0 <= j < |t.order| ==> StateOf(t.order[j]) == t.world.agents[j])
      && (forall j :: 0 <= j < |t.order| ==> (Present(t.order[j]) <==> t.world.agents[j].pos.Some?))
      && (forall k :: 0 <= k < |t.kids| ==>
            t.kids[k] in organisms && t.kids[k].model == this && Embodies(t.kids[k], t.world.born[k]))
      && (forall o :: o in organisms ==> OrganismRef(o) in t.order || o in t.kids)
      && (forall s :: s in structures ==> StructureRef(s) in t.order)
    }

    /**
     * Before the first turn the objects match the trace that starts from
     * their own values and the array, with no newborns yet; every agent of
     * the order is on the grid.
     */
    lemma MatchesAtStart(order: seq<AgentRef>)
      requires Valid() && ActivationOrder(order)
      ensures Matches(Trace(order, Round.World(States(order), Resources(), []), []))
      ensures forall j :: 0 <= j < |order| ==> States(order)[j].pos.Some?
    {
      forall j | 0 <= j < |order|
        ensures Present(order[j]) && StateOf(order[j]).pos.Some?
      {
        assert Present(order[j]);
      }
    }

    /**
     * Activate order[i], the next agent of the trace t: afterwards the
     * objects match t advanced by Round.Turn, with the newborn, if any,
     * appended to the newborn objects.
     */
    method ActivateNext(order: seq<AgentRef>, moves: seq<nat>, draws: seq<real>, i: nat, ghost t: Trace)
      returns (ghost next: Trace)
      requires Valid() && Distinct(order) && t.order == order && Matches(t)
      requires i < |order| && i < |moves| && i < |draws| && moves[i] < |Offsets| && 0.0 <= draws[i] < 1.0
      requires t.world.agents[i].pos.Some?
      requires forall k :: 0 <= k < |t.kids| ==> OrganismRef(t.kids[k]) !in order
      requires forall k, l :: 0 <= k < l < |t.kids| ==> t.kids[k] != t.kids[l]
      modifies this`organisms, this`structures, environment, {order[i].Agent()}
      ensures Valid() && Matches(next) == true
      ensures next.order == order && next.world == Round.Turn(t.world, i, moves[i], draws[i], mutationRate, width, height)
      ensures |t.kids| <= |next.kids| && forall k :: 0 <= k < |t.kids| ==> next.kids[k] == t.kids[k]
      ensures forall k :: |t.kids| <= k < |next.kids| ==> fresh(next.kids[k])
      ensures forall k :: 0 <= k < |next.kids| ==> OrganismRef(next.kids[k]) !in order
      ensures forall k, l :: 0 <= k < l < |next.kids| ==> next.kids[k] != next.kids[l]
    {
      hide Round.Act;
      ghost var child := ActivateAgent(order[i], moves[i], draws[i]);
      next := Trace(order, Round.Turn(t.world, i, moves[i], draws[i], mutationRate, width, height),
                    t.kids + (if child == null then [] else [child]));
      forall j | 0 <= j < |order| && j != i
        ensures unchanged(order[j].Agent())
      {
        assert order[j] != order[i];
        assert order[j].Agent() != order[i].Agent();
      }
      forall k | 0 <= k < |t.kids|
        ensures unchanged(t.kids[k])
      {
        assert OrganismRef(t.kids[k]) != order[i];
        assert t.kids[k] != order[i].Agent();
      }
    }

    /**
     * Activate the agents of the step-start set one after the other in
     * `order`, agent order[i] with neighbour choice moves[i] and draw
     * draws[i], each seeing what the earlier ones changed: the objects end
     * up matching Round.Play of the whole order from the values before,
     * with the newborns in `kids`.
     */
    method ActivateAll(order: seq<AgentRef>, moves: seq<nat>, draws: seq<real>)
      returns (ghost kids: seq<Organism>, ghost final: Round.World)
      requires Valid() && ActivationOrder(order)
      requires |moves| == |order| && |draws| == |order|
      requires forall i :: 0 <= i < |order| ==> moves[i] < |Offsets| && 0.0 <= draws[i] < 1.0
      modifies this`organisms, this`structures, environment, organisms, structures
      ensures Valid()
      ensures final == Round.Play(Round.World(old(States(order)), old(Resources()), []), moves, draws,
                                  mutationRate, width, height, |order|)
      ensures Matches(Trace(order, final, kids)) == true
      ensures forall k :: 0 <= k < |kids| ==> fresh(kids[k])
      ensures forall k, l :: 0 <= k < l < |kids| ==> kids[k] != kids[l]
      ensures forall i, j :: 0 <= i < width && 0 <= j < height ==> environment[i, j] <= old(environment[i, j])
      ensures MeanResource() <= old(MeanResource())
    {
      hide Round.Act;
      MatchesAtStart(order);
      ghost var w0 := Round.World(States(order), Resources(), []);
      final := Round.Play(w0, moves, draws, mutationRate, width, height, |order|);
      Round.PlayThenRest(w0, moves, draws, mutationRate, width, height, 0, |order|);
      Round.PlayLowersCells(w0, moves, draws, mutationRate, width, height, |order|, InitialResource);
      ghost var t := Trace(order, w0, []);
      var i := 0;
      while i < |order|
        invariant 0 <= i <= |order| && t.order == order
        invariant |t.world.agents| == |order| && Stats.Shaped(t.world.grid, width, height)
        invariant Round.Rest(t.world, moves, draws, mutationRate, width, height, i, |order|) == final
        invariant Valid() && Matches(t) == true
        invariant forall j :: i <= j < |order| ==> t.world.agents[j] == w0.agents[j]
        invariant forall k :: 0 <= k < |t.kids| ==> OrganismRef(t.kids[k]) !in order
        invariant forall k :: 0 <= k < |t.kids| ==> fresh(t.kids[k])
        invariant forall k, l :: 0 <= k < l < |t.kids| ==> t.kids[k] != t.kids[l]
      {
        t := ActivateNext(order, moves, draws, i, t);
        i := i + 1;
      }
      kids := t.kids;
      ResourcesLowered();
    }

    /** An array whose cells all lie at or below their earlier values has no larger mean. */
    twostate lemma ResourcesLowered()
      requires environment.Length0 == width && environment.Length1 == height
      requires Round.Below(Resources(), old(Resources()), InitialResource)
      ensures forall i, j :: 0 <= i < width && 0 <= j < height ==> environment[i, j] <= old(environment[i, j])
      ensures MeanResource() <= old(MeanResource())
    {
      Stats.GridMonotone(Resources(), old(Resources()), width, height);
    }

    /**
     * One step of the model: on an empty agent set, do nothing; otherwise
     * activate every agent of the set once in the shuffled `order` and then
     * record the reporters.
     */
    method Step(order: seq<AgentRef>, moves: seq<nat>, draws: seq<real>) returns (ghost kids: seq<Organism>)
      requires Valid() && ActivationOrder(order)
      requires |moves| == |order| && |draws| == |order|
      requires forall i :: 0 <= i < |order| ==> moves[i] < |Offsets| && 0.0 <= draws[i] < 1.0
      modifies this`organisms, this`structures, this`reports, environment, organisms, structures
      ensures Valid()
      ensures old(organisms) == {} && old(structures) == {} ==>
        organisms == {} && structures == {} && reports == old(reports) && unchanged(environment) && kids == []
      ensures old(organisms) != {} || old(structures) != {} ==>
        && Matches(Trace(order, Round.Play(Round.World(old(States(order)), old(Resources()), []), moves, draws,
                                           mutationRate, width, height, |order|), kids)) == true
        && reports == old(reports) + [Report(Cooperators(), Freeloaders(), MeanEnergy(), MeanResource())]
      ensures forall k :: 0 <= k < |kids| ==> fresh(kids[k])
      ensures forall k, l :: 0 <= k < l < |kids| ==> kids[k] != kids[l]
      ensures forall i, j :: 0 <= i < width && 0 <= j < height ==> environment[i, j] <= old(environment[i, j])
      ensures MeanResource() <= old(MeanResource())
    {
      hide Round.Act, Round.Play, Round.Turn, Cooperators, Freeloaders, MeanEnergy, MeanResource;
      if organisms == {} && structures == {} {
        return [];
      }
      ghost var final;
      kids, final := ActivateAll(order, moves, draws);
      label activated:
      Collect();
      MatchesKept@activated(Trace(order, final, kids));
    }

    /** Recording a row of reporters keeps the objects matching a trace. */
    twostate lemma MatchesKept(t: Trace)
      requires old(Matches(t))
      requires unchanged(Agents(t.order)) && unchanged(set k | k in t.kids) && unchanged(environment)
      requires organisms == old(organisms) && structures == old(structures)
      ensures Matches(t)
    {
    }

    /** The data collector records one row: the current values of the four reporters. */
    method Collect()
      modifies this`reports
      ensures reports == old(reports) + [Report(Cooperators(), Freeloaders(), MeanEnergy(), MeanResource())]
    {
      reports := reports + [Report(Cooperators(), Freeloaders(), MeanEnergy(), MeanResource())];
    }

    /**
     * The number of organisms following strategy st: at most the
     * population, none exactly when no organism follows st, all of them
     * exactly when every organism does.
     */
    function StrategyCount(st: Strategy): (n: nat)
      reads this`organisms
      ensures n <= |organisms|
      ensures n == 0 <==> forall o :: o in organisms ==> o.strategy != st
      ensures n == |organisms| <==> forall o :: o in organisms ==> o.strategy == st
    {
      var followers := set o | o in organisms && o.strategy == st;
      var others := organisms - followers;
      assert organisms == followers + others && followers * others == {};
      assert others == {} ==> forall o :: o in organisms ==> o in followers;
      |followers|
    }

    /** Reporter: the number of cooperators; the rest of the population are freeloaders. */
    function Cooperators(): (n: nat)
      reads this`organisms
      ensures n <= |organisms|
      ensures n == 0 <==> forall o :: o in organisms ==> o.strategy == Freeloader
      ensures n == |organisms| <==> forall o :: o in organisms ==> o.strategy == Cooperator
    {
      StrategyCount(Cooperator)
    }

    /** Reporter: the number of freeloaders; the rest of the population are cooperators. */
    function Freeloaders(): (n: nat)
      reads this`organisms
      ensures n <= |organisms|
      ensures n == 0 <==> forall o :: o in organisms ==> o.strategy == Cooperator
      ensures n == |organisms| <==> forall o :: o in organisms ==> o.strategy == Freeloader
    {
      StrategyCount(Freeloader)
    }

    /** Reporter: the mean energy of the organisms, 0 when there are none. */
    ghost function MeanEnergy(): (m: real)
      reads this`organisms, organisms
      ensures organisms == {} ==> m == 0.0
    {
      Stats.Mean(EnergySum(organisms), |organisms|)
    }

    /** The resource array as a table of values. */
    ghost function Resources(): (g: seq<seq<real>>)
      reads environment
      ensures Stats.Shaped(g, environment.Length0, environment.Length1)
      ensures forall i, j :: 0 <= i < environment.Length0 && 0 <= j < environment.Length1 ==> g[i][j] == environment[i, j]
    {
      seq(environment.Length0, i reads environment requires 0 <= i < environment.Length0 =>
        seq(environment.Length1, j reads environment requires 0 <= j < environment.Length1 => environment[i, j]))
    }

    /** Reporter: the mean resource over the array, 0 for an array without cells. */
    ghost function MeanResource(): (m: real)
      reads environment
      ensures environment.Length0 == 0 || environment.Length1 == 0 ==> m == 0.0
    {
      var g := Resources();
      Stats.CellCountShaped(g, environment.Length0, environment.Length1);
      Stats.Mean(Stats.GridTotal(g), Stats.CellCount(g))
    }

    /** Every organism is a cooperator or a freeloader, so the two counts add up to the population. */
    lemma CountsPartition()
      ensures Cooperators() + Freeloaders() == |organisms|
    {
      var c := set o | o in organisms && o.strategy == Cooperator;
      var f := set o | o in organisms && o.strategy == Freeloader;
      assert c + f == organisms;
      assert c * f == {};
    }

    /** In a valid model the mean energy of a non-empty population is positive. */
    lemma MeanEnergyPositive()
      requires Valid() && organisms != {}
      ensures 0.0 < MeanEnergy()
    {
      EnergySumPositive(organisms);
    }

    /** In a valid model the mean resource lies between 0 and the initial resource. */
    lemma MeanResourceBounds()
      requires Valid()
      ensures 0.0 <= MeanResource() <= InitialResource
    {
      var g := Resources();
      Stats.CellCountShaped(g, width, height);
      if Stats.CellCount(g) > 0 {
        Stats.GridMeanBounds(g, 0.0, InitialResource);
      }
    }

    /** An array still filled with the initial resource has that resource as its mean. */
    lemma UniformMeanResource()
      requires environment.Length0 == width && environment.Length1 == height && 0 < width * height
      requires forall i, j :: 0 <= i < width && 0 <= j < height ==> environment[i, j] == InitialResource
      ensures MeanResource() == InitialResource
    {
      var g := Resources();
      Stats.CellCountShaped(g, width, height);
      Stats.GridMeanUniform(g, InitialResource);
    }
  }
}
