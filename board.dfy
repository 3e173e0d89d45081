/**
 * The state of one game: the tiles in board order (removed ones stay in the
 * list with their flag set), the lookup from cells to tiles built when the
 * board is created, and the currently selected tile.
 */
module Boards {
  import opened JavaInt
  import opened TileTypes
  import opened MatchGroups
  import opened Positions
  import opened Freedom
  import opened Tiles

  /**
   * The lookup the constructor builds by putting every tile in turn under
   * its position: every tile's cell is a key, and every key leads to one of
   * the tiles.
   */
  function PositionMapOf(ts: seq<Tile>): (m: map<Position, Tile>)
    reads ts
  {
    if |ts| == 0 then map[]
    else
      var t := ts[|ts| - 1];
      PositionMapOf(ts[..|ts| - 1])[t.position := t]
  }

  /** Every tile's cell is a key of the lookup. */
  lemma {:induction false} CellIsKey(ts: seq<Tile>, i: nat)
    requires i < |ts|
    ensures ts[i].position in PositionMapOf(ts)
  {
    if i < |ts| - 1 {
      CellIsKey(ts[..|ts| - 1], i);
    }
  }

  /** Every key of the lookup leads to one of the tiles, lying on that cell. */
  lemma {:induction false} LookupHoldsTiles(ts: seq<Tile>)
    ensures forall p | p in PositionMapOf(ts) :: PositionMapOf(ts)[p] in ts
    ensures forall p | p in PositionMapOf(ts) :: PositionMapOf(ts)[p].position == p
  {
    if |ts| > 0 {
      var front := ts[..|ts| - 1];
      LookupHoldsTiles(front);
      forall p | p in PositionMapOf(ts)
        ensures PositionMapOf(ts)[p] in ts && PositionMapOf(ts)[p].position == p
      {
        if p != ts[|ts| - 1].position {
          var u := PositionMapOf(front)[p];
          assert u in front;
          var k :| 0 <= k < |front| && front[k] == u;
          assert ts[k] == u;
        }
      }
    }
  }

  /**
   * The last tile put on a cell wins: the cell of entry `i` leads back to
   * it unless a later entry lies on the same cell.
   */
  lemma {:induction false} LastPutWins(ts: seq<Tile>, i: nat)
    requires i < |ts|
    ensures ts[i].position in PositionMapOf(ts)
    ensures PositionMapOf(ts)[ts[i].position] == ts[i]
            || exists j | i < j < |ts| :: ts[j].position == ts[i].position
  {
    var n := |ts| - 1;
    var p := ts[i].position;
    if ts[n].position == p {
      if i < n {
        assert ts[n].position == ts[i].position;
      }
    } else {
      var front := ts[..n];
      assert i < n;
      assert front[i] == ts[i];
      LastPutWins(front, i);
      assert PositionMapOf(ts) == PositionMapOf(front)[ts[n].position := ts[n]];
      assert PositionMapOf(ts)[p] == PositionMapOf(front)[p];
      if exists j | i < j < n :: front[j].position == p {
        var j :| i < j < n && front[j].position == p;
        assert ts[j].position == ts[i].position;
      }
    }
  }

  /** No two entries of `ts` share a cell. */
  ghost predicate DistinctPositions(ts: seq<Tile>)
    reads ts
  {
    forall i, j | 0 <= i < j < |ts| :: ts[i].position != ts[j].position
  }

  /** When cells are distinct, each tile is what its own cell leads to. */
  lemma LookupOfDistinct(ts: seq<Tile>, i: nat)
    requires i < |ts| && DistinctPositions(ts)
    ensures ts[i].position in PositionMapOf(ts) && PositionMapOf(ts)[ts[i].position] == ts[i]
  {
    LastPutWins(ts, i);
  }

  /** Tiles whose `removed` flag is clear, in order. */
  function CountRemaining(ts: seq<Tile>): (n: nat)
    reads ts
    ensures n <= |ts|
  {
    if |ts| == 0 then 0
    else CountRemaining(ts[..|ts| - 1]) + (if ts[|ts| - 1].removed then 0 else 1)
  }

  /** Nothing remains exactly when every tile is removed. */
  lemma {:induction false} NoneRemainingIffAllRemoved(ts: seq<Tile>)
    ensures CountRemaining(ts) == 0 <==> forall t | t in ts :: t.removed
  {
    if |ts| > 0 {
      var front := ts[..|ts| - 1];
      NoneRemainingIffAllRemoved(front);
      assert forall t | t in ts :: t in front || t == ts[|ts| - 1];
      assert forall t | t in front :: t in ts;
    }
  }

  /** The four kinds of one wildcard class, in the order `isGameStuck` adds them up. */
  function GroupTotal(groups: map<TileType, seq<Tile>>, a: TileType, b: TileType, c: TileType, d: TileType): nat {
    GroupSize(groups, a) + GroupSize(groups, b) + GroupSize(groups, c) + GroupSize(groups, d)
  }

  /** The sizes of the groups of four kinds added up, a kind without a group adding 0. */
  method SumGroups(groups: map<TileType, seq<Tile>>, a: TileType, b: TileType, c: TileType, d: TileType)
    returns (count: nat)
    ensures count == GroupTotal(groups, a, b, c, d)
  {
    count := 0;
    if a in groups { count := count + |groups[a]|; }
    if b in groups { count := count + |groups[b]|; }
    if c in groups { count := count + |groups[c]|; }
    if d in groups { count := count + |groups[d]|; }
  }

  /**
   * When each kind's group has as many tiles as the kind has copies in
   * `ks`, the flower test of `isGameStuck` at a kind present in `ks` (it
   * matches FLOWER_PLUM, some flower has a group, and the flower groups hold
   * two tiles) holds exactly when the kind is a flower and `ks` holds two
   * flowers; likewise for seasons.
   */
  lemma WildcardTestsAgree(groups: map<TileType, seq<Tile>>, ks: seq<TileType>, kind: TileType)
    requires forall k :: GroupSize(groups, k) == CountIn(ks, Exact(k))
    requires kind in groups
    ensures (CanMatch(kind, FlowerPlum)
             && (FlowerPlum in groups || FlowerOrchid in groups || FlowerChrysanthemum in groups || FlowerBamboo in groups)
             && GroupTotal(groups, FlowerPlum, FlowerOrchid, FlowerChrysanthemum, FlowerBamboo) >= 2)
            <==> IsFlower(kind) && CountIn(ks, AnyFlower) >= 2
    ensures (CanMatch(kind, SeasonSpring)
             && (SeasonSpring in groups || SeasonSummer in groups || SeasonAutumn in groups || SeasonWinter in groups)
             && GroupTotal(groups, SeasonSpring, SeasonSummer, SeasonAutumn, SeasonWinter) >= 2)
            <==> IsSeason(kind) && CountIn(ks, AnySeason) >= 2
  {
    FlowerCount(ks);
    SeasonCount(ks);
    assert CanMatch(kind, FlowerPlum) <==> IsFlower(kind);
    assert CanMatch(kind, SeasonSpring) <==> IsSeason(kind);
  }

  /**
   * The test `isGameStuck` makes for one kind present among the free tiles:
   * its own group holds two tiles, or it is a flower and the flower groups
   * hold two tiles together, or it is a season and the season groups do.
   */
  method KindHasPair(typeGroups: map<TileType, seq<Tile>>, ghost ks: seq<TileType>, kind: TileType)
    returns (found: bool)
    requires forall k :: GroupSize(typeGroups, k) == CountIn(ks, Exact(k))
    requires kind in typeGroups
    ensures found == PairTestFor(ks, kind)
  {
    assert GroupSize(typeGroups, kind) == CountIn(ks, Exact(kind));
    if |typeGroups[kind]| >= 2 {
      return true;
    }
    WildcardTestsAgree(typeGroups, ks, kind);
    if CanMatch(kind, FlowerPlum)
       && (FlowerPlum in typeGroups || FlowerOrchid in typeGroups
           || FlowerChrysanthemum in typeGroups || FlowerBamboo in typeGroups)
    {
      var flowerCount := SumGroups(typeGroups, FlowerPlum, FlowerOrchid, FlowerChrysanthemum, FlowerBamboo);
      if flowerCount >= 2 {
        return true;
      }
    }
    if CanMatch(kind, SeasonSpring)
       && (SeasonSpring in typeGroups || SeasonSummer in typeGroups
           || SeasonAutumn in typeGroups || SeasonWinter in typeGroups)
    {
      var seasonCount := SumGroups(typeGroups, SeasonSpring, SeasonSummer, SeasonAutumn, SeasonWinter);
      if seasonCount >= 2 {
        return true;
      }
    }
    return false;
  }

  /**
   * The loop of `isGameStuck` over the free tiles: each kind is tested once,
   * the first time it is met, and the scan stops at the first kind whose
   * test finds a pair.
   */
  method ScanForPair(freeTiles: seq<Tile>, typeGroups: map<TileType, seq<Tile>>)
    returns (pairFound: bool)
    requires forall k :: GroupSize(typeGroups, k) == CountIn(Kinds(freeTiles), Exact(k))
    ensures pairFound <==> exists i | 0 <= i < |freeTiles| :: PairTestFor(Kinds(freeTiles), Kinds(freeTiles)[i])
  {
    ghost var ks := Kinds(freeTiles);
    var checkedTypes: set<TileType> := {};
    for i := 0 to |freeTiles|
      invariant forall k | k in checkedTypes :: !PairTestFor(ks, k)
      invariant forall j | 0 <= j < i :: ks[j] in checkedTypes
    {
      var kind := freeTiles[i].kind;
      if kind in checkedTypes {
        continue;
      }
      checkedTypes := checkedTypes + {kind};
      CountPositive(ks, Exact(kind));
      assert GroupSize(typeGroups, kind) > 0;
      var found := KindHasPair(typeGroups, ks, kind);
      if found {
        return true;
      }
    }
    return false;
  }

  class Board {
    const layoutId: string
    const tiles: seq<Tile>
    const positionMap: map<Position, Tile>
    var selectedTile: Tile?

    /** Every tile the lookup leads to is a tile of the board. */
    predicate Valid() {
      forall p | p in positionMap :: positionMap[p] in tiles
    }

    constructor (layoutId: string, tiles: seq<Tile>)
      ensures this.layoutId == layoutId && this.tiles == tiles
      ensures positionMap == PositionMapOf(tiles) && selectedTile == null
      ensures Valid()
    {
      var m: map<Position, Tile> := map[];
      for i := 0 to |tiles|
        invariant m == PositionMapOf(tiles[..i])
      {
        assert tiles[..i + 1][..i] == tiles[..i];
        m := m[tiles[i].position := tiles[i]];
      }
      assert tiles[..|tiles|] == tiles;
      LookupHoldsTiles(tiles);
      this.layoutId := layoutId;
      this.tiles := tiles;
      this.positionMap := m;
      this.selectedTile := null;
    }

    /** `getTileAt`: the tile the lookup holds for `p`, if any. */
    function GetTileAt(p: Position): (r: Tile?)
      requires Valid()
      ensures r != null <==> p in positionMap
      ensures r != null ==> r in tiles
    {
      if p in positionMap then positionMap[p] else null
    }

    /** The cells whose tile in the lookup is not removed. */
    function Live(): set<Position>
      reads positionMap.Values
    {
      set p | p in positionMap && !positionMap[p].removed
    }

    /** `isTileFree` as a rule: a tile that is not removed, free at its current cell. */
    predicate IsFree(t: Tile?)
      reads t, positionMap.Values
    {
      t != null && !t.removed && FreeAt(Live(), t.position)
    }

    /** The entries of `ts` that are free, in order. */
    function FreeIn(ts: seq<Tile>): (r: seq<Tile>)
      reads ts, positionMap.Values
      ensures |r| <= |ts|
    {
      if |ts| == 0 then []
      else
        var t := ts[|ts| - 1];
        FreeIn(ts[..|ts| - 1]) + (if IsFree(t) then [t] else [])
    }

    /** The free entries are exactly the entries that are free. */
    lemma {:induction false} FreeInMembers(ts: seq<Tile>)
      ensures forall t | t in FreeIn(ts) :: t in ts && IsFree(t)
      ensures forall t | t in ts && IsFree(t) :: t in FreeIn(ts)
    {
      if |ts| > 0 {
        var front := ts[..|ts| - 1];
        var t := ts[|ts| - 1];
        FreeInMembers(front);
        assert forall u | u in front :: u in ts;
        assert forall u | u in ts :: u in front || u == t;
      }
    }

    function FreeTiles(): seq<Tile>
      reads tiles, positionMap.Values
    {
      FreeIn(tiles)
    }

    /** The freedom test, scanning the nine cells above, then the left and right columns. */
    method IsTileFree(tile: Tile?) returns (free: bool)
      ensures free == IsFree(tile)
    {
      if tile == null || tile.removed {
        return false;
      }
      var pos := tile.position;
      var dx: int32 := -1;
      while dx <= 1
        invariant -1 <= dx <= 2
        invariant forall dx': int32, dy': int32 | -1 <= dx' < dx && -1 <= dy' <= 1 ::
                    Shift(pos, dx', dy', 1) !in Live()
      {
        var dy: int32 := -1;
        while dy <= 1
          invariant -1 <= dy <= 2
          invariant forall dx': int32, dy': int32 | -1 <= dx' < dx && -1 <= dy' <= 1 ::
                      Shift(pos, dx', dy', 1) !in Live()
          invariant forall dy': int32 | -1 <= dy' < dy :: Shift(pos, dx, dy', 1) !in Live()
        {
          var above := Shift(pos, dx, dy, 1);
          var aboveTile := if above in positionMap then positionMap[above] else null;
          if aboveTile != null && !aboveTile.removed {
            return false;
          }
          dy := dy + 1;
        }
        dx := dx + 1;
      }
      var leftBlocked := ScanColumn(pos, -1);
      var rightBlocked := ScanColumn(pos, 1);
      return !leftBlocked || !rightBlocked;
    }

    /** Whether any of the three cells beside `pos`, `dx` columns away, holds a live tile. */
    method ScanColumn(pos: Position, dx: int32) returns (blocked: bool)
      ensures blocked <==> exists dy: int32 | -1 <= dy <= 1 :: Shift(pos, dx, dy, 0) in Live()
    {
      blocked := false;
      var dy: int32 := -1;
      while dy <= 1
        invariant -1 <= dy <= 2
        invariant forall dy': int32 | -1 <= dy' < dy :: Shift(pos, dx, dy', 0) !in Live()
      {
        var side := Shift(pos, dx, dy, 0);
        var sideTile := if side in positionMap then positionMap[side] else null;
        if sideTile != null && !sideTile.removed {
          blocked := true;
          break;
        }
        dy := dy + 1;
      }
    }

    lemma FreeInStep(i: nat)
      requires i < |tiles|
      ensures FreeIn(tiles[..i + 1]) == FreeIn(tiles[..i]) + (if IsFree(tiles[i]) then [tiles[i]] else [])
    {
      assert tiles[..i + 1][..i] == tiles[..i];
    }

    /** `getFreeTiles`: the free tiles, in board order. */
    method GetFreeTiles() returns (free: seq<Tile>)
      ensures free == FreeTiles()
    {
      free := [];
      for i := 0 to |tiles|
        invariant free == FreeIn(tiles[..i])
      {
        var tile := tiles[i];
        FreeInStep(i);
        var ok := false;
        if !tile.removed {
          ok := IsTileFree(tile);
        }
        if ok {
          free := free + [tile];
        }
      }
      assert tiles[..|tiles|] == tiles;
    }

    /**
     * `setSelectedTile`: clear the old selection's flag, then select `tile`
     * (or nothing) and set its flag.
     */
    method SetSelectedTile(tile: Tile?)
      modifies this, selectedTile, tile
      ensures selectedTile == tile
      ensures tile != null ==> tile.selected
      ensures old(selectedTile) != null && old(selectedTile) != tile ==> !old(selectedTile).selected
      ensures forall t: Tile | t == tile || t == old(selectedTile) ::
                t.removed == old(t.removed) && t.position == old(t.position)
    {
      if selectedTile != null {
        selectedTile.SetSelected(false);
      }
      selectedTile := tile;
      if tile != null {
        tile.SetSelected(true);
      }
    }

    /** The outcome `removePair` decides on before it changes anything. */
    predicate CanRemove(t1: Tile?, t2: Tile?)
      reads t1, t2, positionMap.Values
    {
      t1 != null && t2 != null && t1.id != t2.id && t1.CanMatchWith(t2)
      && IsFree(t1) && IsFree(t2)
    }

    /**
     * `removePair`: all or nothing.  Two different, matching, free tiles are
     * both marked removed and the selection is dropped if it was one of them;
     * otherwise nothing changes.  No `selected` flag is touched.
     */
    method RemovePair(t1: Tile?, t2: Tile?) returns (removed: bool)
      modifies t1, t2, this
      ensures removed == old(CanRemove(t1, t2))
      ensures removed ==> t1.removed && t2.removed
      ensures removed ==>
                selectedTile == (if old(selectedTile) != null
                                    && (old(selectedTile).id == t1.id || old(selectedTile).id == t2.id)
                                 then null else old(selectedTile))
      ensures !removed ==> selectedTile == old(selectedTile)
      ensures forall t: Tile | t == t1 || t == t2 ::
                t.selected == old(t.selected) && t.position == old(t.position)
                && (!removed ==> t.removed == old(t.removed))
    {
      if t1 == null || t2 == null {
        return false;
      }
      if t1.id == t2.id {
        return false;
      }
      if !t1.CanMatchWith(t2) {
        return false;
      }
      var free1 := IsTileFree(t1);
      var free2 := IsTileFree(t2);
      if !free1 || !free2 {
        return false;
      }
      t1.SetRemoved(true);
      t2.SetRemoved(true);
      if selectedTile != null && (selectedTile.id == t1.id || selectedTile.id == t2.id) {
        selectedTile := null;
      }
      return true;
    }

    /** `isGameWon`: every tile is removed. */
    method IsGameWon() returns (won: bool)
      ensures won <==> forall t | t in tiles :: t.removed
    {
      for i := 0 to |tiles|
        invariant forall k | 0 <= k < i :: tiles[k].removed
      {
        if !tiles[i].removed {
          return false;
        }
      }
      return true;
    }

    /** `isGameStuck` as a rule: no two different free tiles can be matched. */
    predicate IsStuck()
      reads tiles, positionMap.Values
    {
      !HasMatchingPair(Kinds(FreeTiles()))
    }

    /**
     * `isGameStuck`: group the free tiles by kind, then for each kind present
     * (once) look for two copies, or for two flowers if it is a flower, or
     * for two seasons if it is a season.
     */
    method IsGameStuck() returns (stuck: bool)
      ensures stuck == IsStuck()
    {
      var freeTiles := GetFreeTiles();
      var typeGroups := GroupByKind(freeTiles);
      PairByKindOrWildcard(Kinds(freeTiles));
      var pairFound := ScanForPair(freeTiles, typeGroups);
      return !pairFound;
    }

    /** `getRemainingTileCount`: the number of tiles not removed. */
    method GetRemainingTileCount() returns (count: nat)
      ensures count == CountRemaining(tiles)
    {
      count := 0;
      for i := 0 to |tiles|
        invariant count == CountRemaining(tiles[..i])
      {
        assert tiles[..i + 1][..i] == tiles[..i];
        if !tiles[i].removed {
          count := count + 1;
        }
      }
      assert tiles[..|tiles|] == tiles;
    }
  }
}
