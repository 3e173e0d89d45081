/**
 * The freedom rule of the board.  A tile is free when no live tile lies on
 * any of the nine cells one layer above it (its own column and row, and the
 * neighbouring ones), and at least one of its sides is open: the three cells
 * to its left (x - 1, rows y - 1 .. y + 1, same layer) or the three cells to
 * its right hold no live tile.  Coordinates are computed with Java's 32-bit
 * wrap-around.  The rule is stated here once, over the set of positions
 * held by live (not removed) tiles; the board and the solvability simulator
 * each compute that set their own way.
 */
module Freedom {
  import opened JavaInt
  import opened Positions

  /** `p` moved by the given offsets, coordinate by coordinate, on Java ints. */
  function Shift(p: Position, dx: int32, dy: int32, dz: int32): Position {
    Position(Add(p.x, dx), Add(p.y, dy), Add(p.z, dz))
  }

  /** Some live tile lies on one of the nine cells above `p`. */
  predicate CoveredAbove(live: set<Position>, p: Position) {
    exists dx: int32, dy: int32 | -1 <= dx <= 1 && -1 <= dy <= 1 :: Shift(p, dx, dy, 1) in live
  }

  /** Some live tile lies on one of the three cells to the left of `p`. */
  predicate BlockedLeft(live: set<Position>, p: Position) {
    exists dy: int32 | -1 <= dy <= 1 :: Shift(p, -1, dy, 0) in live
  }

  /** Some live tile lies on one of the three cells to the right of `p`. */
  predicate BlockedRight(live: set<Position>, p: Position) {
    exists dy: int32 | -1 <= dy <= 1 :: Shift(p, 1, dy, 0) in live
  }

  predicate FreeAt(live: set<Position>, p: Position) {
    !CoveredAbove(live, p) && (!BlockedLeft(live, p) || !BlockedRight(live, p))
  }

  /** Removing tiles never takes freedom away from a tile that had it. */
  lemma FreedomIsMonotone(live: set<Position>, fewer: set<Position>, p: Position)
    requires fewer <= live
    requires FreeAt(live, p)
    ensures FreeAt(fewer, p)
  {
  }

  /** Only the cells of the neighbourhood matter: live tiles elsewhere change nothing. */
  lemma FreedomIsLocal(live: set<Position>, other: set<Position>, p: Position)
    requires forall dx: int32, dy: int32, dz: int32 | -1 <= dx <= 1 && -1 <= dy <= 1 && 0 <= dz <= 1 ::
               Shift(p, dx, dy, dz) in live <==> Shift(p, dx, dy, dz) in other
    ensures FreeAt(live, p) <==> FreeAt(other, p)
  {
    // each neighbour cell the rule looks at is one the hypothesis names
    assert forall dx: int32, dy: int32 | -1 <= dx <= 1 && -1 <= dy <= 1 ::
      Shift(p, dx, dy, 1) in live <==> Shift(p, dx, dy, 1) in other;
    assert forall dy: int32 | -1 <= dy <= 1 ::
      Shift(p, -1, dy, 0) in live <==> Shift(p, -1, dy, 0) in other;
    assert forall dy: int32 | -1 <= dy <= 1 ::
      Shift(p, 1, dy, 0) in live <==> Shift(p, 1, dy, 0) in other;
  }

  /** A tile with nothing live around it is free. */
  lemma LoneTileIsFree(p: Position)
    ensures FreeAt({p}, p)
  {
    forall dx: int32, dy: int32 | -1 <= dx <= 1 && -1 <= dy <= 1
      ensures Shift(p, dx, dy, 1) != p
    {
      WrapStep(p.z);
    }
    forall dy: int32 | -1 <= dy <= 1 ensures Shift(p, -1, dy, 0) != p {
      WrapStep(p.x);
    }
  }

  /** Adding one to a Java int always changes it (at the top it wraps to the bottom). */
  lemma WrapStep(v: int32)
    ensures Add(v, 1) != v && Add(v, -1) != v
  {
  }

  /**
   * The 2 x 2 square of a single layer: every tile is free, since the left
   * column of the left tiles and the right column of the right tiles are empty.
   */
  lemma SquareIsAllFree()
    ensures forall p | p in SquareLayer() :: FreeAt(SquareLayer(), p)
  {
    var s := SquareLayer();
    forall p | p in s ensures FreeAt(s, p) {
      assert !CoveredAbove(s, p);
      if p.x == 0 {
        assert !BlockedLeft(s, p);
      } else {
        assert !BlockedRight(s, p);
      }
    }
  }

  function SquareLayer(): set<Position> {
    {Position(0, 0, 0), Position(1, 0, 0), Position(0, 1, 0), Position(1, 1, 0)}
  }

  /**
   * A tile on top of the square's corner (0, 0, 1) covers every square tile
   * and is itself free.
   */
  lemma TopTileCovers()
    ensures forall p | p in SquareLayer() :: !FreeAt(SquareLayer() + {TopTile()}, p)
    ensures FreeAt(SquareLayer() + {TopTile()}, TopTile())
  {
    var s := SquareLayer() + {TopTile()};
    forall p | p in SquareLayer() ensures CoveredAbove(s, p) {
      SquareCornerIsBelowTop(p);
    }
    TopIsFree();
  }

  function TopTile(): Position {
    Position(0, 0, 1)
  }

  lemma SquareCornerIsBelowTop(p: Position)
    requires p in SquareLayer()
    ensures Shift(p, -p.x, -p.y, 1) == TopTile()
  {
  }

  lemma TopIsFree()
    ensures FreeAt(SquareLayer() + {TopTile()}, TopTile())
  {
    var s := SquareLayer() + {TopTile()};
    var top := TopTile();
    forall dx: int32, dy: int32 | -1 <= dx <= 1 && -1 <= dy <= 1
      ensures Shift(top, dx, dy, 1) !in s
    {
      assert Add(top.z, 1) == 2;
      assert Shift(top, dx, dy, 1).z == 2;
    }
    forall dy: int32 | -1 <= dy <= 1 ensures Shift(top, -1, dy, 0) !in s {
      assert Add(top.x, -1) == -1;
    }
  }
}
