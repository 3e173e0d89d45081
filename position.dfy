/**
 * A cell of the three-dimensional board: column `x` (left to right), row `y`
 * (top to bottom) and layer `z` (0 is the bottom layer).  Positions are
 * immutable values and compare by their three coordinates.
 */
module Positions {
  import opened JavaInt

  datatype Position = Position(x: int32, y: int32, z: int32)

  /** `equals`: all three coordinates agree. */
  predicate Equals(p: Position, q: Position) {
    p.x == q.x && p.y == q.y && p.z == q.z
  }

  /** `hashCode`: fold the coordinates with factor 31, on 32-bit ints. */
  function HashCode(p: Position): (h: int32)
    ensures h == Wrap(961 * p.x + 31 * p.y + p.z)
  {
    var result := p.x;
    var result' := Wrap(31 * result + p.y);
    var h := Wrap(31 * result' + p.z);
    assert (31 * result' + p.z) - (961 * p.x + 31 * p.y + p.z)
        == 31 * (result' - (31 * p.x + p.y));
    ScaledCongruence(result' - (31 * p.x + p.y), 31);
    WrapCongruent(31 * result' + p.z, 961 * p.x + 31 * p.y + p.z);
    h
  }

  lemma ScaledCongruence(d: int, c: int)
    requires d % TWO_32 == 0
    ensures (c * d) % TWO_32 == 0
  {
    var k := d / TWO_32;
    assert d == k * TWO_32;
    assert c * d == (c * k) * TWO_32;
  }

  /** Structural equality is the datatype's own equality, so it is an equivalence. */
  lemma EqualsIsIdentity(p: Position, q: Position)
    ensures Equals(p, q) <==> p == q
    ensures Equals(p, p)
    ensures Equals(p, q) ==> Equals(q, p)
  {
  }

  /** Equal positions have equal hash codes. */
  lemma EqualsAgreesWithHash(p: Position, q: Position)
    requires Equals(p, q)
    ensures HashCode(p) == HashCode(q)
  {
  }

  /** Distinct positions can share a hash code: (0,1,0) and (0,0,31). */
  lemma HashCollides()
    ensures HashCode(Position(0, 1, 0)) == HashCode(Position(0, 0, 31))
    ensures Position(0, 1, 0) != Position(0, 0, 31)
  {
  }
}
