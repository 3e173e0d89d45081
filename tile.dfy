/**
 * A tile on the board: a fixed id and kind, a position, and the two flags
 * the game changes, `selected` and `removed`.  A removed tile stays in the
 * board's list as a tombstone.
 */
module Tiles {
  import opened JavaInt
  import opened TileTypes
  import opened Positions
  import opened MatchGroups

  class Tile {
    const id: int32
    const kind: TileType
    var position: Position
    var selected: bool
    var removed: bool

    /** A new tile is neither selected nor removed. */
    constructor (id: int32, kind: TileType, position: Position)
      ensures this.id == id && this.kind == kind && this.position == position
      ensures !selected && !removed
    {
      this.id := id;
      this.kind := kind;
      this.position := position;
      this.selected := false;
      this.removed := false;
    }

    method SetPosition(position: Position)
      modifies this
      ensures this.position == position
      ensures selected == old(selected) && removed == old(removed)
    {
      this.position := position;
    }

    method SetSelected(selected: bool)
      modifies this
      ensures this.selected == selected
      ensures position == old(position) && removed == old(removed)
    {
      this.selected := selected;
    }

    method SetRemoved(removed: bool)
      modifies this
      ensures this.removed == removed
      ensures position == old(position) && selected == old(selected)
    {
      this.removed := removed;
    }

    /**
     * `canMatchWith`: no match with a missing tile, and none while either
     * tile is removed; otherwise the match rule on the two kinds decides.
     */
    predicate CanMatchWith(other: Tile?)
      reads this, other
    {
      other != null && !other.removed && !removed && CanMatch(kind, other.kind)
    }

    /** `equals`: tiles are the same tile when their ids agree. */
    predicate Equals(other: Tile?) {
      other != null && other.id == id
    }

    /** `hashCode` is the id itself. */
    function HashCode(): int32 {
      id
    }
  }

  /** The kinds of a list of tiles, in order. */
  function Kinds(ts: seq<Tile>): (ks: seq<TileType>)
    ensures |ks| == |ts| && forall i | 0 <= i < |ts| :: ks[i] == ts[i].kind
  {
    seq(|ts|, i requires 0 <= i < |ts| => ts[i].kind)
  }

  /** The entries of `ts` whose kind lies in class `g`, in order. */
  function OfGroup(ts: seq<Tile>, g: Group): (r: seq<Tile>)
    ensures |r| == CountIn(Kinds(ts), g)
  {
    if |ts| == 0 then []
    else
      var t := ts[|ts| - 1];
      assert Kinds(ts)[..|ts| - 1] == Kinds(ts[..|ts| - 1]);
      OfGroup(ts[..|ts| - 1], g) + (if InGroup(t.kind, g) then [t] else [])
  }

  /** The number of tiles grouped under `k`. */
  function GroupSize(groups: map<TileType, seq<Tile>>, k: TileType): nat {
    if k in groups then |groups[k]| else 0
  }

  /** The entries of `ts` of kind `k`, in order. */
  function OfKind(ts: seq<Tile>, k: TileType): (r: seq<Tile>)
    ensures |r| == CountIn(Kinds(ts), Exact(k))
  {
    OfGroup(ts, Exact(k))
  }

  /**
   * Group tiles by kind, as the map from each kind present to the list of
   * its tiles in order; a kind with no tile has no entry.
   */
  method GroupByKind(ts: seq<Tile>) returns (groups: map<TileType, seq<Tile>>)
    ensures forall k | k in groups :: groups[k] == OfKind(ts, k) && |groups[k]| > 0
    ensures forall k | k !in groups :: OfKind(ts, k) == []
    ensures forall k :: GroupSize(groups, k) == CountIn(Kinds(ts), Exact(k))
  {
    groups := map[];
    for i := 0 to |ts|
      invariant forall k | k in groups :: groups[k] == OfKind(ts[..i], k) && |groups[k]| > 0
      invariant forall k | k !in groups :: OfKind(ts[..i], k) == []
    {
      var t := ts[i];
      OfKindStep(ts, i);
      if t.kind !in groups {
        groups := groups[t.kind := []];
      }
      groups := groups[t.kind := groups[t.kind] + [t]];
    }
    assert ts[..|ts|] == ts;
  }

  lemma OfKindStep(ts: seq<Tile>, i: nat)
    requires i < |ts|
    ensures forall k :: OfKind(ts[..i + 1], k) == OfKind(ts[..i], k) + (if ts[i].kind == k then [ts[i]] else [])
  {
    assert ts[..i + 1][..i] == ts[..i];
  }

  lemma OfGroupStep(ts: seq<Tile>, i: nat, g: Group)
    requires i < |ts|
    ensures OfGroup(ts[..i + 1], g) == OfGroup(ts[..i], g) + (if InGroup(ts[i].kind, g) then [ts[i]] else [])
  {
    assert ts[..i + 1][..i] == ts[..i];
  }

  /** The first entry of a non-empty class list comes from some index of `ts`. */
  lemma {:induction false} OfGroupFirst(ts: seq<Tile>, g: Group) returns (i: nat)
    requires |OfGroup(ts, g)| >= 1
    ensures i < |ts| && ts[i] == OfGroup(ts, g)[0] && InGroup(ts[i].kind, g)
  {
    var front := ts[..|ts| - 1];
    if |OfGroup(front, g)| >= 1 {
      i := OfGroupFirst(front, g);
    } else {
      i := |ts| - 1;
    }
  }

  /**
   * The first two entries of a class list are two entries of `ts`, in that
   * order, at different indices, both in the class.
   */
  lemma {:induction false} OfGroupFirstTwo(ts: seq<Tile>, g: Group) returns (i: nat, j: nat)
    requires |OfGroup(ts, g)| >= 2
    ensures i < j < |ts|
    ensures ts[i] == OfGroup(ts, g)[0] && ts[j] == OfGroup(ts, g)[1]
    ensures InGroup(ts[i].kind, g) && InGroup(ts[j].kind, g)
  {
    var front := ts[..|ts| - 1];
    if |OfGroup(front, g)| >= 2 {
      i, j := OfGroupFirstTwo(front, g);
    } else {
      i := OfGroupFirst(front, g);
      j := |ts| - 1;
    }
  }

  /** The match test is symmetric and never pairs a removed or missing tile. */
  lemma CanMatchWithRule(a: Tile, b: Tile?)
    ensures a.CanMatchWith(b) ==> b != null && !a.removed && !b.removed
    ensures b != null ==> (a.CanMatchWith(b) <==> b.CanMatchWith(a))
    ensures b != null && !a.removed && !b.removed ==> (a.CanMatchWith(b) <==> CanMatch(a.kind, b.kind))
  {
  }

  /** Tile equality is an equivalence on ids, and equal tiles hash alike. */
  lemma EqualsIsById(a: Tile, b: Tile, c: Tile)
    ensures a.Equals(a)
    ensures a.Equals(b) <==> b.Equals(a)
    ensures a.Equals(b) && b.Equals(c) ==> a.Equals(c)
    ensures a.Equals(b) ==> a.HashCode() == b.HashCode()
    ensures a.Equals(b) <==> a.HashCode() == b.HashCode()
  {
  }
}
