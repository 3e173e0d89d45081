/**
 * A layout: the template of cells a board fills with tiles, with its id,
 * display name, description and a difficulty on a 1 to 10 scale.  The
 * position list is a value, so the layout never shares it with its caller.
 */
module Layouts {
  import opened JavaInt
  import opened Positions

  /** A Java list: at most `MAX_INT` entries, so every index fits an `int`. */
  type PositionList = s: seq<Position> | |s| <= MAX_INT

  datatype Layout = Layout(
    id: string,
    name: string,
    description: string,
    difficulty: int32,
    positions: PositionList)

  function TileCount(l: Layout): int32 {
    |l.positions|
  }

  /** A layout is usable when its cells can all be paired off. */
  predicate IsValid(l: Layout) {
    TileCount(l) % 2 == 0 && TileCount(l) > 0
  }

  /** Valid layouts are exactly those with a positive number of pairs of cells. */
  lemma ValidIsWholePairs(l: Layout)
    ensures IsValid(l) <==> exists k: nat :: k >= 1 && TileCount(l) == 2 * k
  {
    if IsValid(l) {
      var k := TileCount(l) / 2;
      assert k >= 1 && TileCount(l) == 2 * k;
    }
  }
}
