/**
 * Sheet geometry of the third generation (fftcgtool/grid.py): the same
 * (x, y) pair, whose product is again a grid.
 */
module ToolGrids {

  /** `Grid((x, y))`: component 0 is `x`, component 1 is `y`. */
  datatype Grid = Grid(x: int, y: int)

  /** `g * h`: the componentwise product, itself a grid. */
  function Mul(g: Grid, h: Grid): (p: Grid)
    ensures p.x == g.x * h.x && p.y == g.y * h.y
  {
    Grid(g.x * h.x, g.y * h.y)
  }

  /** `grid.capacity`: every slot but the one kept for the back. */
  function Capacity(g: Grid): int { g.x * g.y - 1 }

  /** A grid holds at least one face exactly when it has at least two slots. */
  lemma CapacityPositive(g: Grid)
    ensures Capacity(g) >= 1 <==> g.x * g.y >= 2
  {
  }

  /** The product's slot count is the product of the slot counts. */
  lemma MulCapacity(g: Grid, h: Grid)
    ensures Capacity(Mul(g, h)) + 1 == (Capacity(g) + 1) * (Capacity(h) + 1)
  {
    assert (g.x * h.x) * (g.y * h.y) == (g.x * g.y) * (h.x * h.y);
  }

  /** The product is associative and commutative, as a grid. */
  lemma MulLaws(f: Grid, g: Grid, h: Grid)
    ensures Mul(Mul(f, g), h) == Mul(f, Mul(g, h))
    ensures Mul(f, g) == Mul(g, f)
  {
    assert (f.x * g.x) * h.x == f.x * (g.x * h.x);
    assert (f.y * g.y) * h.y == f.y * (g.y * h.y);
  }
}
