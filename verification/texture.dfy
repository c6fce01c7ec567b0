/**
 * Textures: a colour as a function of surface coordinates (u, v) and the
 * point hit. Two kinds make up the core: a constant colour, and a 3-D
 * checker board that chooses one of two child textures by the parity of the
 * point's integer cell.
 */
module Textures {
  import opened Geometry
  import opened Common

  datatype Texture =
    | SolidColor(colorValue: Color)
    | Checker(invScale: real, even: Texture, odd: Texture)

  /** `checker_texture(_scale, _even, _odd)`: stores the reciprocal of the scale. */
  function NewChecker(scale: real, even: Texture, odd: Texture): (t: Texture)
    requires scale != 0.0
    ensures t.Checker? && t.invScale * scale == 1.0
    ensures t.even == even && t.odd == odd
  {
    Checker(1.0 / scale, even, odd)
  }

  /** `checker_texture(_scale, c1, c2)`: two solid children. */
  function NewCheckerOfColors(scale: real, c1: Color, c2: Color): (t: Texture)
    requires scale != 0.0
    ensures t.Checker? && t.invScale * scale == 1.0
    ensures t.even == SolidColor(c1) && t.odd == SolidColor(c2)
  {
    NewChecker(scale, SolidColor(c1), SolidColor(c2))
  }

  /** `static_cast<int>(std::floor(inv_scale * x))`: the cell index along one axis. */
  function CellIndex(invScale: real, x: real): int {
    (invScale * x).Floor
  }

  /** The source's test `(x + y + z) % 2 == 0`, with C++'s truncating remainder. */
  predicate IsEvenCell(x: int, y: int, z: int) {
    CppRem(x + y + z, 2) == 0
  }

  /** `value(u, v, p)` of either kind of texture. */
  function Value(t: Texture, u: real, v: real, p: Point3): Color
    decreases t
  {
    match t
    case SolidColor(c) => c
    case Checker(invScale, even, odd) =>
      if IsEvenCell(CellIndex(invScale, p.x), CellIndex(invScale, p.y), CellIndex(invScale, p.z))
      then Value(even, u, v, p)
      else Value(odd, u, v, p)
  }

  /** A solid colour is the same everywhere. */
  lemma SolidColorIsConstant(c: Color, u: real, v: real, p: Point3, u': real, v': real, p': Point3)
    ensures Value(SolidColor(c), u, v, p) == c
    ensures Value(SolidColor(c), u, v, p) == Value(SolidColor(c), u', v', p')
  {
  }

  /**
   * The checker shows its `even` child exactly when the cell coordinates sum
   * to an even number, negative sums included, and its `odd` child otherwise.
   */
  lemma CheckerChoosesByParity(invScale: real, even: Texture, odd: Texture, u: real, v: real, p: Point3)
    ensures var n := CellIndex(invScale, p.x) + CellIndex(invScale, p.y) + CellIndex(invScale, p.z);
      Value(Checker(invScale, even, odd), u, v, p) ==
        (if n % 2 == 0 then Value(even, u, v, p) else Value(odd, u, v, p))
  {
    CppRemParity(CellIndex(invScale, p.x) + CellIndex(invScale, p.y) + CellIndex(invScale, p.z));
  }

  /** Moving one cell along any single axis swaps the child that is shown. */
  lemma NeighbourCellsAlternate(x: int, y: int, z: int)
    ensures IsEvenCell(x + 1, y, z) == !IsEvenCell(x, y, z)
    ensures IsEvenCell(x, y + 1, z) == !IsEvenCell(x, y, z)
    ensures IsEvenCell(x, y, z + 1) == !IsEvenCell(x, y, z)
  {
    CppRemParity(x + y + z);
    CppRemParity(x + y + z + 1);
  }

  /**
   * Neither kind of texture looks at (u, v): the checker only passes them on
   * to its children, so every texture built from these two kinds has the
   * same value at a point whatever the surface coordinates.
   */
  lemma {:induction false} ValueIgnoresSurfaceCoordinates(t: Texture, u: real, v: real, u': real, v': real, p: Point3)
    ensures Value(t, u, v, p) == Value(t, u', v', p)
    decreases t
  {
    match t
    case SolidColor(_) =>
    case Checker(_, even, odd) =>
      ValueIgnoresSurfaceCoordinates(even, u, v, u', v', p);
      ValueIgnoresSurfaceCoordinates(odd, u, v, u', v', p);
  }
}
