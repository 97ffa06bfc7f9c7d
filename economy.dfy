/**
 * The energy and resource arithmetic of one organism activation and the
 * lifespan countdown of a structure, as pure functions on values. The
 * methods of the Niche classes are proved against these definitions.
 */
module Economy {
  import opened Optional

  datatype Strategy = Cooperator | Freeloader

  /** Energy paid at the start of every move. */
  const MoveCost: real := 0.5
  /** The most resource one consume takes from a cell. */
  const BiteSize: real := 1.0
  /** Energy at or above which an organism reproduces. */
  const ReproductionThreshold: real := 10.0
  /** Energy of an organism created without an explicit energy. */
  const DefaultEnergy: real := 5.0
  /** Resource every cell holds when the model is created. */
  const InitialResource: real := 2.0
  /** Lifespan of a structure created without an explicit lifespan. */
  const DefaultLifespan: int := 5

  /** The other strategy: cooperators and freeloaders swap. */
  function Flip(s: Strategy): (r: Strategy)
    ensures r != s
  {
    match s
    case Cooperator => Freeloader
    case Freeloader => Cooperator
  }

  /**
   * The amount consume takes from a cell holding `cell`: the smaller of the
   * cell's resource and one bite.
   */
  function Grant(cell: real): (g: real)
    ensures g <= cell && g <= BiteSize
    ensures g == cell || g == BiteSize
    ensures 0.0 <= cell ==> 0.0 <= g && 0.0 <= cell - g
  {
    if cell < BiteSize then cell else BiteSize
  }

  /**
   * The strategy of a newborn: the parent's, swapped when the uniform draw
   * falls below the mutation rate.
   */
  function ChildStrategy(parent: Strategy, draw: real, mutationRate: real): (r: Strategy)
    ensures r == parent || r == Flip(parent)
    ensures r != parent <==> draw < mutationRate
    ensures 0.0 <= draw && mutationRate <= 0.0 ==> r == parent
    ensures draw < 1.0 && 1.0 <= mutationRate ==> r == Flip(parent)
  {
    if draw < mutationRate then Flip(parent) else parent
  }

  datatype Newborn = Newborn(energy: real, strategy: Strategy)

  /** What one activation of an organism leaves behind. */
  datatype Activation =
    | Died(energy: real)
    | Lived(energy: real, cell: real, newborn: Option<Newborn>)

  function NewbornEnergy(n: Option<Newborn>): real {
    match n
    case None => 0.0
    case Some(b) => b.energy
  }

  /**
   * One activation of an organism with `energy`, whose move lands on a cell
   * holding `cell`: pay the move cost and die if nothing is left; otherwise
   * eat one grant of the cell and, at the reproduction threshold, split the
   * energy evenly with a newborn.
   */
  function Activate(energy: real, cell: real, strategy: Strategy, draw: real, mutationRate: real): (a: Activation)
    ensures a.Died? <==> energy <= MoveCost
    ensures a.Died? ==> a.energy == energy - MoveCost && a.energy <= 0.0
    ensures a.Lived? ==> a.energy + NewbornEnergy(a.newborn) + a.cell == energy - MoveCost + cell
    ensures a.Lived? ==> a.cell == cell - Grant(cell) && cell - BiteSize <= a.cell
    ensures a.Lived? && 0.0 <= cell ==> 0.0 <= a.cell <= cell
    ensures a.Lived? && 0.0 <= cell ==> 0.0 < a.energy <= energy - MoveCost + BiteSize
    ensures a.Lived? ==> (a.newborn.Some? <==> ReproductionThreshold <= energy - MoveCost + cell - a.cell)
    ensures a.Lived? && a.newborn.Some? ==>
      a.newborn.value == Newborn(a.energy, ChildStrategy(strategy, draw, mutationRate))
      && ReproductionThreshold / 2.0 <= a.energy
  {
    var charged := energy - MoveCost;
    if charged <= 0.0 then
      Died(charged)
    else
      var g := Grant(cell);
      var fed := charged + g;
      if ReproductionThreshold <= fed then
        Lived(fed / 2.0, cell - g, Some(Newborn(fed / 2.0, ChildStrategy(strategy, draw, mutationRate))))
      else
        Lived(fed, cell - g, None)
  }

  /**
   * One step of a structure with `lifespan`: the decremented lifespan, or
   * None when the structure removes itself.
   */
  function Decay(lifespan: int): (r: Option<int>)
    ensures r.None? <==> lifespan - 1 <= 0
    ensures r.Some? ==> r.value == lifespan - 1 && 0 < r.value
  {
    if lifespan - 1 <= 0 then None else Some(lifespan - 1)
  }

  /** The lifespan left after `steps` activations, or None once removed. */
  function Remaining(lifespan: int, steps: nat): Option<int>
  {
    if steps == 0 then Some(lifespan)
    else match Decay(lifespan)
      case None => None
      case Some(l) => Remaining(l, steps - 1)
  }

  /**
   * A structure created with lifespan L >= 1 is still present, with L - n
   * left, after steps 1 .. L - 1, and has removed itself after step L.
   */
  lemma {:induction false} Lifetime(lifespan: int, steps: nat)
    requires 1 <= lifespan
    ensures Remaining(lifespan, steps).Some? <==> steps < lifespan
    ensures steps < lifespan ==> Remaining(lifespan, steps) == Some(lifespan - steps)
  {
    if steps > 0 && lifespan > 1 {
      Lifetime(lifespan - 1, steps - 1);
    }
  }
}
