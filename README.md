# Niche construction: the energy and resource economy

This project models the core of a small agent-based simulation of niche construction, written on top of the mesa framework. The model covers three classes, each with its state updated in place:

- **Organism.** A cooperator or freeloader with an energy store. Each step it pays 0.5 energy to jump to a random Moore neighbour on a toroidal grid, and dies if that leaves it at zero or below. Otherwise it eats up to 1.0 of the resource of the cell it lands on. At 10 energy or more it halves its energy with a newborn on the same cell, whose strategy is swapped with probability `mutation_rate`.
- **Structure.** A lifespan counter that goes down by one each step. The structure removes itself once the counter reaches zero.
- **NicheModel.** It owns the width × height resource array (filled with 2.0), the agent set and the data collector's reporters. Each step it activates every agent of the set once, in shuffled order. Every activation sees what the earlier ones changed.

Modules:

- `Torus` (torus.dfy): grid cells and the k-th toroidal Moore neighbour. It also gives an independent definition of toroidal adjacency, and proves the eight choices are exactly the adjacent cells.
- `Economy` (economy.dfy): the arithmetic of one organism activation and of a structure's countdown, as pure functions: `Grant`, `ChildStrategy`, `Activate`, `Decay` and `Remaining`.
- `Stats` (stats.dfy): totals and means of a resource table, with bounds and monotonicity lemmas.
- `Round` (round.dfy): one model step on values. An agent is a record of its fields and a step is a left-to-right fold of turns over a world of agents, a resource table and the newborns so far. Each turn reads the table as the earlier turns left it.
- `Niche` (niche.dfy): the classes `Organism`, `Structure` and `NicheModel`. Their methods are proved against the `Economy` functions and keep the model invariant `NicheModel.Valid`:
  - every cell stays in [0, 2.0];
  - every agent in the set is placed on the grid;
  - every organism holds positive energy.

  `NicheModel.Matches` ties the objects to a `Round` world: each agent of the activation order holds that world's values, the array holds its table, and each newborn object holds the values of a newborn. The agent set is exactly the placed agents of the order plus the newborns. The model step is proved to leave the objects matching the world that `Round.Play` computes from their values before the step. Its newborn objects are fresh and pairwise different, one for each newborn of that world.
- `Optional` (optional.dfy): the option type.

Randomness is an input everywhere:

- the neighbour choice is an index `k < 8`;
- the mutation draw is a real in [0, 1);
- the shuffled activation order is a sequence listing every agent of the step-start set exactly once;
- the seeding choices are sequences of strategies and coordinates.

mesa's spatial index is each agent's `pos` field: `Some(cell)` while the agent is placed, `None` once it is removed. mesa's single agent set is kept as two sets, `organisms` and `structures`. The data collector's stored rows are the ghost history `reports`.

The modelled code has no resource recharge, charges no energy for eating, records no ages at death and looks for no free cell for a newborn. The model follows the code:

- `NicheModel.step` returns at once on an empty agent set, so nothing at all happens in that step;
- no cell ever gains resource;
- eating adds the whole amount taken from the cell to the organism's energy;
- the child is put on the parent's own cell.

## Model

| member | source | states |
|---|---|---|
| Torus.Neighbour | organism.py:21-23 | the cell chosen for the move lies on the width × height grid, with wrap-around on both axes |
| Torus.NeighbourIsAdjacent | organism.py:21-23 | on grids at least 2 × 2, each of the eight choices is a toroidal Moore neighbour: a grid cell other than the old one, at most one step away on each axis counting wrap-around |
| Torus.AdjacentIsNeighbour | organism.py:21-22 | every toroidal Moore neighbour of the old cell is one of the eight choices, so the choice covers the whole neighbourhood |
| Torus.NeighboursDistinct | organism.py:21-22 | on grids at least 3 × 3 the eight choices are eight different cells, so a uniform index is a uniform neighbour |
| Economy.Grant | organism.py:36-37 | the amount consumed is the smaller of the cell's resource and 1.0: never more than either, one of the two, and for a non-negative cell non-negative and leaving the cell non-negative |
| Economy.Flip | organism.py:46 | a mutation always swaps cooperator and freeloader |
| Economy.ChildStrategy | organism.py:45-48 | the child's strategy is the parent's or the swapped one, and differs exactly when the draw is below the mutation rate; a rate of 0 never changes it, a rate of 1 always does |
| Economy.Activate | organism.py:9-51 | one activation: death exactly when the energy after the 0.5 charge is ≤ 0, with that energy; otherwise the cell loses exactly Grant(cell), energy plus newborn energy plus cell equals energy − 0.5 plus the old cell, and the cell stays ≥ 0; a newborn exists exactly at ≥ 10 and then has the parent's new energy and the mutated strategy |
| Economy.Decay | structure.py:16-19 | one structure step: removal exactly when lifespan − 1 ≤ 0, otherwise the decremented, positive lifespan |
| Economy.Lifetime | structure.py:7-19 | a structure created with lifespan L ≥ 1 is present with L − n left after steps n < L and has removed itself from step L on |
| Stats.Mean | model.py:29-30 | a mean over no elements is 0 |
| Stats.GridMeanBounds | model.py:30 | the mean of a non-empty table whose cells lie in [lo, hi] lies in [lo, hi] |
| Stats.GridMonotone | model.py:30 | if no cell of a table increases, its total and mean do not increase |
| Niche.Organism.constructor | organism.py:4-7 | a new organism has the given model, strategy (default cooperator) and energy (default 5) and is not yet placed |
| Niche.Organism.Step | organism.py:9-13 | move, then consume and reproduce only if the move did not kill it; the new energy, position, cell, agent set and newborn are exactly those Activate computes from the old energy and the resource of the target cell, no other cell changes, and the model invariant is kept |
| Niche.Organism.Move | organism.py:15-24 | energy drops by exactly 0.5; at ≤ 0 the organism leaves the grid and the agent set and −1 is returned; otherwise it stands on the k-th Moore neighbour of its old cell, stays in the set and 0 is returned |
| Niche.Organism.Die | organism.py:26-28 | the organism is removed from the grid and from the agent set, and nothing else leaves the set |
| Niche.Organism.ModifyEnvironment | organism.py:31-32 | the action does nothing and reports −1 |
| Niche.Organism.Consume | organism.py:34-39 | energy rises by Grant(cell) and the cell falls by the same amount, so energy plus cell is unchanged; no other cell changes; the model invariant is kept |
| Niche.Organism.Reproduce | organism.py:42-51 | below 10 nothing changes; at ≥ 10 the energy is halved and one fresh child is added to the set, with exactly the parent's new energy, on the parent's cell, and with ChildStrategy's strategy |
| Niche.Structure.constructor | structure.py:7-9 | a new structure has the given lifespan (default 5) and is not yet placed |
| Niche.Structure.Step | structure.py:11-19 | lifespan drops by exactly 1; at ≤ 0 the structure leaves the grid and the agent set, otherwise it stays where it is; the outcome is Decay's |
| Niche.NicheModel.constructor | model.py:9-23 | the defaults are 50 organisms, 20 × 20 cells and mutation rate 0.01; every cell holds 2.0; exactly nAgents fresh, pairwise different organisms form the agent set, the i-th with the i-th chosen strategy, energy 5 and the i-th chosen in-bounds cell; no structures, no reports; the model invariant holds |
| Niche.NicheModel.SeedOrganism | model.py:21-23 | one seeding round adds one fresh organism with the chosen strategy, energy 5 and cell to the set and keeps all earlier ones as they were |
| Round.Act | organism.py:9-13 | one turn on values keeps the table's shape; an organism stays an organism with its strategy, a structure stays a structure and leaves the table alone with no newborn; OrganismFate and StructureFate state the agent's outcome |
| Round.Turn | model.py:37 | the turn of agent i changes no other agent and keeps the number of agents and the table's shape |
| Round.Play | model.py:37 | the first n turns of a step, in activation order, keep the number of agents and the table's shape; what they compute is stated by the lemmas below |
| Round.PlayThenRest | model.py:37 | the first i turns followed by turns i to n − 1 give the whole step, so the step can be taken one turn at a time |
| Round.PlayLeavesLater | model.py:37 | after n turns the agents whose turn has not come still hold their values from the start of the step |
| Round.PlayFinal | model.py:37 | after n turns agent j < n holds what its own turn made of its start values on the table as the j earlier turns left it: later agents see earlier agents' changes, and later turns do not touch it |
| Round.OrganismFate | organism.py:9-24 | after the step, an organism that was placed is alive exactly when its energy exceeded 0.5; alive it stands on its chosen neighbour with the energy Activate gives for that cell as the earlier turns left it, dead it holds its energy minus 0.5; its strategy is kept |
| Round.StructureFate | structure.py:11-19 | after the step, a structure that was placed has lost exactly one lifespan and is on the grid exactly while the lifespan stays positive |
| Round.PlayLowersCells | organism.py:34-39 | no turn raises a cell: a table whose cells lie in [0, hi] ends the step with every cell in [0, hi] and at most its value at the start |
| Round.PlayNewborns | organism.py:42-51 | a step makes at most one newborn per turn, each with energy at least 5 |
| Niche.NicheModel.MatchesAtStart | model.py:37 | before the first turn the objects match the world built from their own values and the array, with no newborns, and every agent of the order is placed |
| Niche.NicheModel.ActivateAgent | model.py:37 | activating one agent leaves its fields, the array and its membership in the agent set exactly as Round.Act computes from its old values and the old array; a newborn object exists exactly when Act makes a newborn and then is fresh and holds its values; no other agent enters or leaves the set |
| Niche.NicheModel.ActivateNext | model.py:37 | taking turn i on objects that match a world leaves them matching Turn of that world, with the turn's newborn added |
| Niche.NicheModel.ActivateAll | model.py:37 | activating the order one agent after another leaves the objects matching Round.Play of their values before the step, each turn seeing the earlier turns' changes; the newborn objects are fresh and pairwise different, one per newborn; no cell increases and neither does the mean resource |
| Niche.NicheModel.Step | model.py:34-38 | an empty agent set leaves the set, the array and the reports unchanged; otherwise the objects end up matching Round.Play of their values before the step over the given order, with fresh and pairwise different newborn objects, one per newborn, and one row of reporter values is appended; no cell increases and neither does the mean resource |
| Niche.NicheModel.MatchesKept | model.py:38 | recording the reporters changes no agent, newborn or array, so the objects still match the same world |
| Niche.NicheModel.ResourcesLowered | model.py:30 | an array whose cells all lie at or below their earlier values has a mean resource no larger than before |
| Niche.NicheModel.Collect | model.py:38 | the data collector appends the current values of the four reporters |
| Niche.NicheModel.StrategyCount | model.py:27-28 | the number of organisms with a strategy is at most the population, 0 exactly when no organism has it, and the whole population exactly when every organism has it |
| Niche.NicheModel.Cooperators | model.py:27 | the cooperator count is at most the population, 0 exactly when every organism is a freeloader, and the whole population exactly when every organism is a cooperator |
| Niche.NicheModel.Freeloaders | model.py:28 | the freeloader count is at most the population, 0 exactly when every organism is a cooperator, and the whole population exactly when every organism is a freeloader |
| Niche.NicheModel.MeanResource | model.py:30 | an array without cells reports a mean resource of 0 |
| Niche.NicheModel.MeanEnergy | model.py:29 | the mean energy of an empty population is 0 |
| Niche.NicheModel.CountsPartition | model.py:27-28 | the cooperator and freeloader counts add up to the number of organisms |
| Niche.NicheModel.MeanEnergyPositive | model.py:29 | in a valid model a non-empty population has positive mean energy |
| Niche.NicheModel.MeanResourceBounds | model.py:30 | in a valid model the mean resource lies between 0 and 2.0 |
| Niche.NicheModel.UniformMeanResource | model.py:16 | an array still filled with 2.0 reports a mean resource of exactly 2.0 |

## Left out

- Floating point: energies and resources are exact reals, so the rounding of Python floats and numpy is not modelled.
- The `print` calls in `die` and `consume` are left out: they are logging only.
- mesa's `MultiGrid` is modelled only through each agent's position. Cell occupant lists and mesa's own neighbourhood computation are not modelled.
- Torus.Neighbour: on grids narrower than 3 cells, mesa removes duplicate cells and the centre from the neighbourhood. The eight-way choice here does not. The neighbourhood lemmas therefore require at least 2 × 2 (adjacency) or 3 × 3 (distinct choices). On a 1 × 1 grid the neighbourhood is empty and `random.choice` raises (organism.py:21-22), whereas Neighbour returns the organism's own cell.
- mesa registers every agent with the model when it is created, so the source's explicit `agents.add` is a repeated insert into a set. The model adds each agent once.
- Round.Act: an organism already off the grid, or a grid without cells, leaves the turn unchanged. Neither can happen in a step of a valid model, where every agent of the order is placed on a non-empty grid.
- A step activates the step-start snapshot in the given order. The model does not check whether mesa's weak-reference agent set would skip agents removed earlier in the step, because agents here only ever remove themselves. Newborns are not in the snapshot and do not act in the step they are born.
- Niche.NicheModel.constructor: the random strategy and coordinate choices are inputs, required to lie on the grid. `randrange` on a zero-sized grid, which raises in the source, is therefore excluded by the precondition when nAgents > 0.
- Niche.NicheModel.Cooperators, Freeloaders and MeanEnergy range over organisms only. In the source they iterate the whole agent set. A Structure there has neither a strategy nor an energy, so all three reporters would fail on it. No code in the modelled files creates a Structure.
- The data collector's storage is the ghost history `reports`, one row per non-empty step.
- The mutation draw is required to lie in [0, 1), like Python's `random()`. Other distributions of the random inputs are not modelled.
- batch_sim.py and app.py, the batch runner and the interactive front end, are not part of this model.
