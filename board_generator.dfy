/**
 * Building boards from layouts.  The kinds are dealt as pairs, four pairs
 * of each kind in a shuffled order of the 42 kinds, and then shuffled
 * again; one tile is placed on each cell of the layout, an odd last cell
 * being dropped.  A greedy simulation that keeps removing some free pair
 * decides whether a board is accepted as solvable.  The random permutations
 * of `Collections.shuffle` are left open: any permutation may come out.
 */
module BoardGenerators {
  import opened JavaInt
  import opened TileTypes
  import opened MatchGroups
  import opened Positions
  import opened Freedom
  import opened Tiles
  import opened Layouts
  import opened Config
  import opened Boards

  // ---------------------------------------------------------------------
  // getAvailableTileTypes and generateTileDistribution
  // ---------------------------------------------------------------------

  /** `maxPairsPerType`: the number of pairs dealt of a kind before the next kind. */
  const MAX_PAIRS_PER_TYPE: nat := 4

  /**
   * `getAvailableTileTypes`: the numbered bands looked up by name, then the
   * winds, dragons, flowers and seasons; every kind once, in declaration order.
   */
  method AvailableTileTypes() returns (types: seq<TileType>)
    ensures types == Values()
    ensures forall t: TileType :: t in types
    ensures forall i, j | 0 <= i < j < |types| :: types[i] != types[j]
    ensures forall i | 1 <= i <= 9 ::
              Name(types[i - 1]) == "CHARACTER_" + [DigitChar(i)]
              && Name(types[i + 8]) == "BAMBOO_" + [DigitChar(i)]
              && Name(types[i + 17]) == "CIRCLE_" + [DigitChar(i)]
  {
    types := [];
    for i := 1 to 10
      invariant types == Values()[..i - 1]
    {
      NumberedNames(i);
      types := types + [(i - 1) as TileType];
    }
    for i := 1 to 10
      invariant types == Values()[..i + 8]
    {
      types := types + [(i + 8) as TileType];
    }
    for i := 1 to 10
      invariant types == Values()[..i + 17]
    {
      types := types + [(i + 17) as TileType];
    }
    types := types + [WindNorth, WindEast, WindSouth, WindWest];
    types := types + [DragonRed, DragonGreen, DragonWhite];
    types := types + [FlowerPlum, FlowerOrchid, FlowerChrysanthemum, FlowerBamboo];
    types := types + [SeasonSpring, SeasonSummer, SeasonAutumn, SeasonWinter];
    assert types == Values();
    forall i | 1 <= i <= 9
      ensures Name(types[i - 1]) == "CHARACTER_" + [DigitChar(i)]
              && Name(types[i + 8]) == "BAMBOO_" + [DigitChar(i)]
              && Name(types[i + 17]) == "CIRCLE_" + [DigitChar(i)]
    {
      NumberedNames(i);
    }
    forall t: TileType ensures t in types {
      assert types[t as int] == t;
    }
  }

  /** `Collections.shuffle`: some permutation of `s`, chosen by the random source. */
  method Shuffle<T(==)>(s: seq<T>) returns (r: seq<T>)
    ensures multiset(r) == multiset(s)
  {
    r :| multiset(r) == multiset(s);
  }

  /** `b % m` written as repeated subtraction, the form the proofs work with. */
  function Cycle(b: nat, m: nat): (c: nat)
    requires m > 0
    ensures c < m
  {
    if b < m then b else Cycle(b - m, m)
  }

  /** The next block's kind index: one further on, back to 0 after the last kind. */
  lemma {:induction false} CycleStep(b: nat, m: nat)
    requires m > 0
    ensures Cycle(b + 1, m) == if Cycle(b, m) + 1 == m then 0 else Cycle(b, m) + 1
  {
    if b >= m {
      CycleStep(b - m, m);
    }
  }

  lemma SmallMod(x: int, m: int)
    requires 0 <= x <= m && m > 0
    ensures x % m == if x == m then 0 else x
  {
  }

  /** The kind of pair number `k`: the kinds of `order` in turn, four pairs each, cycling. */
  function PairKind(order: seq<TileType>, k: nat): TileType
    requires |order| > 0
  {
    order[Cycle(k / 4, |order|)]
  }

  /**
   * The distribution before the final shuffle: `n` pairs, pair `k` taking
   * entries `2k` and `2k + 1`.
   */
  function Paired(order: seq<TileType>, n: nat): (d: seq<TileType>)
    requires |order| > 0
    ensures |d| == 2 * n
  {
    if n == 0 then []
    else Paired(order, n - 1) + [PairKind(order, n - 1), PairKind(order, n - 1)]
  }

  /** Entries `2k` and `2k + 1` of the unshuffled distribution are both of the kind of pair `k`. */
  lemma {:induction false} PairedEntries(order: seq<TileType>, n: nat, k: nat)
    requires |order| > 0 && k < n
    ensures Paired(order, n)[2 * k] == Paired(order, n)[2 * k + 1] == PairKind(order, k)
  {
    if k < n - 1 {
      PairedEntries(order, n - 1, k);
      assert Paired(order, n)[..2 * (n - 1)] == Paired(order, n - 1);
    }
  }

  /** How many of the first `n` pairs are of kind `t`. */
  function PairsOf(order: seq<TileType>, n: nat, t: TileType): (c: nat)
    requires |order| > 0
    ensures c <= n
  {
    if n == 0 then 0
    else PairsOf(order, n - 1, t) + (if PairKind(order, n - 1) == t then 1 else 0)
  }

  /** Each pair puts its kind in the distribution twice. */
  lemma {:induction false} PairedCounts(order: seq<TileType>, n: nat, t: TileType)
    requires |order| > 0
    ensures CountIn(Paired(order, n), Exact(t)) == 2 * PairsOf(order, n, t)
  {
    if n > 0 {
      PairedCounts(order, n - 1, t);
      var d := Paired(order, n - 1);
      var k := PairKind(order, n - 1);
      assert (d + [k, k])[..|d| + 1] == d + [k];
      assert (d + [k])[..|d|] == d;
    }
  }

  /** `x` cut to the range 0 .. 4. */
  function Clamp(x: int): (c: nat)
    ensures c <= 4
  {
    if x < 0 then 0 else if x > 4 then 4 else x
  }

  /**
   * While the order of kinds is not yet wrapped around, the kind at index
   * `idx` of a repetition-free order gets the pairs `4 idx` .. `4 idx + 3`
   * and no others.
   */
  lemma {:induction false} PairsBeforeWrap(order: seq<TileType>, n: nat, idx: nat)
    requires idx < |order| && n <= 4 * |order|
    requires forall i, j | 0 <= i < j < |order| :: order[i] != order[j]
    ensures PairsOf(order, n, order[idx]) == Clamp(n - 4 * idx)
  {
    if n > 0 {
      PairsBeforeWrap(order, n - 1, idx);
      var q := (n - 1) / 4;
      assert q < |order|;
      assert PairKind(order, n - 1) == order[q];
      if q == idx {
        assert 4 * idx <= n - 1 < 4 * idx + 4;
      } else {
        assert order[q] != order[idx];
        assert n - 1 < 4 * idx || n - 1 >= 4 * idx + 4;
      }
    }
  }

  /** A repetition-free order of the kinds deals no kind more than four pairs while it has not wrapped. */
  lemma PairsCapped(order: seq<TileType>, n: nat, t: TileType)
    requires |order| > 0 && n <= 4 * |order|
    requires forall i, j | 0 <= i < j < |order| :: order[i] != order[j]
    ensures PairsOf(order, n, t) <= 4
  {
    if t in order {
      var idx :| 0 <= idx < |order| && order[idx] == t;
      PairsBeforeWrap(order, n, idx);
    } else {
      PairsOfAbsent(order, n, t);
    }
  }

  lemma {:induction false} PairsOfAbsent(order: seq<TileType>, n: nat, t: TileType)
    requires |order| > 0 && t !in order
    ensures PairsOf(order, n, t) == 0
  {
    if n > 0 {
      PairsOfAbsent(order, n - 1, t);
      assert PairKind(order, n - 1) in order;
    }
  }

  /** A sequence without repetitions holds each value at most once. */
  lemma {:induction false} DistinctCounts<T>(s: seq<T>, x: T)
    requires forall i, j | 0 <= i < j < |s| :: s[i] != s[j]
    ensures multiset(s)[x] <= 1
  {
    if |s| > 0 {
      var front := s[..|s| - 1];
      assert s == front + [s[|s| - 1]];
      DistinctCounts(front, x);
      if x == s[|s| - 1] {
        assert x !in front;
      }
    }
  }

  /** A sequence holding each value at most once has no repetitions. */
  lemma SingleCountsAreDistinct<T>(s: seq<T>)
    requires forall x :: multiset(s)[x] <= 1
    ensures forall i, j | 0 <= i < j < |s| :: s[i] != s[j]
  {
    forall i, j | 0 <= i < j < |s|
      ensures s[i] != s[j]
    {
      assert s == s[..j] + s[j..];
      assert s[i] in s[..j] && s[j] in s[j..];
      assert multiset(s) == multiset(s[..j]) + multiset(s[j..]);
      assert multiset(s)[s[j]] >= multiset(s[..j])[s[j]] + 1;
    }
  }

  /** A permutation of the kinds in declaration order holds each kind once. */
  lemma ShuffledKindsDistinct(order: seq<TileType>)
    requires multiset(order) == multiset(Values())
    ensures |order| == 42
    ensures forall i, j | 0 <= i < j < |order| :: order[i] != order[j]
  {
    assert |order| == |multiset(order)| == |Values()|;
    forall x ensures multiset(order)[x] <= 1 {
      DistinctCounts(Values(), x);
    }
    SingleCountsAreDistinct(order);
  }

  /** Dealing one more pair: the count within the current kind goes up by one or starts again. */
  lemma PairStep(i: nat)
    ensures (i + 1) / 4 == i / 4 + (if i % 4 == 3 then 1 else 0)
    ensures (i + 1) % 4 == (if i % 4 == 3 then 0 else i % 4 + 1)
  {
  }

  /**
   * Every kind comes an even number of times in the unshuffled distribution,
   * and while a repetition-free order of the 42 kinds is not exhausted (at
   * most 168 pairs) no kind comes more than 8 times.
   */
  lemma PairedMultiplicities(order: seq<TileType>, n: nat)
    requires |order| == 42
    requires forall i, j | 0 <= i < j < |order| :: order[i] != order[j]
    ensures forall t :: multiset(Paired(order, n))[t] == 2 * PairsOf(order, n, t)
    ensures n <= MAX_PAIRS_PER_TYPE * 42 ==>
              forall t :: multiset(Paired(order, n))[t] <= 2 * MAX_PAIRS_PER_TYPE
  {
    forall t ensures multiset(Paired(order, n))[t] == 2 * PairsOf(order, n, t) {
      PairedCounts(order, n, t);
      CountIsMultiplicity(Paired(order, n), t);
    }
    if n <= MAX_PAIRS_PER_TYPE * 42 {
      forall t ensures PairsOf(order, n, t) <= MAX_PAIRS_PER_TYPE {
        PairsCapped(order, n, t);
      }
    }
  }

  /**
   * The pairing loop of `generateTileDistribution`: `pairCount` pairs, the
   * kind index moving on, cyclically, after every fourth pair.
   */
  method DealPairs(availableTypes: seq<TileType>, pairCount: nat) returns (distribution: seq<TileType>)
    requires |availableTypes| > 0
    ensures distribution == Paired(availableTypes, pairCount)
  {
    distribution := [];
    var typeIndex := 0;
    var pairsOfThisType := 0;
    for i := 0 to pairCount
      invariant distribution == Paired(availableTypes, i)
      invariant typeIndex == Cycle(i / 4, |availableTypes|)
      invariant pairsOfThisType == i % 4
    {
      var kind := availableTypes[typeIndex];
      distribution := distribution + [kind];
      distribution := distribution + [kind];
      PairStep(i);
      CycleStep(i / 4, |availableTypes|);
      pairsOfThisType := pairsOfThisType + 1;
      if pairsOfThisType >= MAX_PAIRS_PER_TYPE {
        SmallMod(typeIndex + 1, |availableTypes|);
        typeIndex := (typeIndex + 1) % |availableTypes|;
        pairsOfThisType := 0;
      }
    }
  }

  /**
   * `generateTileDistribution`: `tileCount / 2` pairs over a shuffled order
   * of the kinds, four pairs of each kind in turn, the whole list shuffled
   * once more.  Every kind comes an even number of times, and while the
   * 42 kinds are not exhausted (at most 168 pairs) no kind more than 8 times.
   * The difficulty is not consulted.
   */
  method GenerateTileDistribution(tileCount: nat, difficulty: Difficulty)
    returns (distribution: seq<TileType>, ghost order: seq<TileType>)
    ensures multiset(order) == multiset(Values())
    ensures multiset(distribution) == multiset(Paired(order, tileCount / 2))
    ensures |distribution| == 2 * (tileCount / 2)
    ensures forall t :: multiset(distribution)[t] % 2 == 0
    ensures tileCount / 2 <= MAX_PAIRS_PER_TYPE * 42 ==>
              forall t :: multiset(distribution)[t] <= 2 * MAX_PAIRS_PER_TYPE
  {
    var pairCount := tileCount / 2;
    var availableTypes := AvailableTileTypes();
    availableTypes := Shuffle(availableTypes);
    ShuffledKindsDistinct(availableTypes);
    distribution := DealPairs(availableTypes, pairCount);
    order := availableTypes;
    PairedMultiplicities(order, pairCount);
    var unshuffled := distribution;
    distribution := Shuffle(distribution);
    assert |distribution| == |multiset(distribution)| == |unshuffled|;
  }

  // ---------------------------------------------------------------------
  // generateBoard
  // ---------------------------------------------------------------------

  /**
   * A board as `generateBoard` deals it for `layout`: the layout's id, one
   * tile per cell with an odd last cell dropped, tile `i` with id `i` on
   * cell `i`, nothing selected or removed, and the lookup built from the
   * tiles.
   */
  ghost predicate DealtFrom(board: Board, layout: Layout)
    reads board, board.tiles
  {
    var n := 2 * (|layout.positions| / 2);
    board.layoutId == layout.id
    && |board.tiles| == n
    && (forall i | 0 <= i < n ::
          board.tiles[i].id == i && board.tiles[i].position == layout.positions[i]
          && !board.tiles[i].selected && !board.tiles[i].removed)
    && board.positionMap == PositionMapOf(board.tiles)
    && board.selectedTile == null
  }

  /** The tile-creating loop of `generateBoard`: tile `i` gets id `i`, kind `i` and cell `i`. */
  method CreateTiles(kinds: seq<TileType>, positions: PositionList) returns (tiles: seq<Tile>)
    requires |kinds| == |positions|
    ensures |tiles| == |positions| && Kinds(tiles) == kinds
    ensures forall j | 0 <= j < |tiles| ::
              fresh(tiles[j]) && tiles[j].id == j && tiles[j].position == positions[j]
              && !tiles[j].selected && !tiles[j].removed
  {
    tiles := [];
    for i := 0 to |positions|
      invariant |tiles| == i
      invariant forall j | 0 <= j < i ::
                  fresh(tiles[j]) && tiles[j].id == j && tiles[j].kind == kinds[j]
                  && tiles[j].position == positions[j] && !tiles[j].selected && !tiles[j].removed
    {
      var tile := new Tile(i as int32, kinds[i], positions[i]);
      tiles := tiles + [tile];
    }
  }

  /**
   * `generateBoard`: the dealt board for the layout, its kinds a shuffled
   * distribution, so every kind comes an even number of times and, for up
   * to 168 pairs, at most 8 times.
   */
  method GenerateBoard(layout: Layout, difficulty: Difficulty) returns (board: Board)
    ensures fresh(board) && forall t | t in board.tiles :: fresh(t)
    ensures DealtFrom(board, layout)
    ensures forall t :: multiset(Kinds(board.tiles))[t] % 2 == 0
    ensures |layout.positions| / 2 <= MAX_PAIRS_PER_TYPE * 42 ==>
              forall t :: multiset(Kinds(board.tiles))[t] <= 2 * MAX_PAIRS_PER_TYPE
  {
    var positions := layout.positions;
    if |positions| % 2 != 0 {
      positions := positions[..|positions| - 1];
    }
    var tileTypes;
    ghost var order;
    tileTypes, order := GenerateTileDistribution(|positions|, difficulty);
    assert |positions| == 2 * (|layout.positions| / 2);
    assert forall j | 0 <= j < |positions| :: positions[j] == layout.positions[j];
    var tiles := CreateTiles(tileTypes, positions);
    board := new Board(layout.id, tiles);
  }

  // ---------------------------------------------------------------------
  // The simulator's getFreeTiles(tiles, removed)
  // ---------------------------------------------------------------------

  /** The cells the simulator counts as occupied: those of the tiles whose id is not in `removed`. */
  function SimLive(tiles: seq<Tile>, removed: set<int32>): set<Position>
    reads tiles
  {
    set t | t in tiles && t.id !in removed :: t.position
  }

  /** The entries of `ts` whose id is not in `removed` and that are free among `live`, in order. */
  function SimFreeIn(ts: seq<Tile>, live: set<Position>, removed: set<int32>): (r: seq<Tile>)
    reads ts
    ensures |r| <= |ts|
  {
    if |ts| == 0 then []
    else
      var t := ts[|ts| - 1];
      SimFreeIn(ts[..|ts| - 1], live, removed)
      + (if t.id !in removed && FreeAt(live, t.position) then [t] else [])
  }

  /** What the simulator's `getFreeTiles(tiles, removed)` promises to return. */
  function SimFree(tiles: seq<Tile>, removed: set<int32>): seq<Tile>
    reads tiles
  {
    SimFreeIn(tiles, SimLive(tiles, removed), removed)
  }

  /** The free entries are entries of `ts` that are not removed and free among `live`. */
  lemma {:induction false} SimFreeMembers(ts: seq<Tile>, live: set<Position>, removed: set<int32>)
    ensures forall t | t in SimFreeIn(ts, live, removed) :: t in ts && t.id !in removed && FreeAt(live, t.position)
  {
    if |ts| > 0 {
      var front := ts[..|ts| - 1];
      SimFreeMembers(front, live, removed);
      assert forall u | u in front :: u in ts;
    }
  }

  /** `live` is the set of keys of `m` whose tile has an id outside `removed`. */
  ghost predicate Occupies(m: map<Position, Tile>, removed: set<int32>, live: set<Position>) {
    forall p :: p in live <==> p in m && m[p].id !in removed
  }

  lemma SimLiveStep(tiles: seq<Tile>, removed: set<int32>, i: nat)
    requires i < |tiles|
    ensures SimLive(tiles[..i + 1], removed)
            == SimLive(tiles[..i], removed) + (if tiles[i].id !in removed then {tiles[i].position} else {})
  {
    assert tiles[..i + 1] == tiles[..i] + [tiles[i]];
  }

  lemma SimFreeStep(tiles: seq<Tile>, live: set<Position>, removed: set<int32>, i: nat)
    requires i < |tiles|
    ensures SimFreeIn(tiles[..i + 1], live, removed)
            == SimFreeIn(tiles[..i], live, removed)
               + (if tiles[i].id !in removed && FreeAt(live, tiles[i].position) then [tiles[i]] else [])
  {
    assert tiles[..i + 1][..i] == tiles[..i];
  }

  /** The simulator's lookup: the tiles whose id is not in `removed`, put under their cells. */
  method SimPositionMap(tiles: seq<Tile>, removed: set<int32>) returns (positionMap: map<Position, Tile>)
    ensures Occupies(positionMap, removed, SimLive(tiles, removed))
  {
    positionMap := map[];
    for i := 0 to |tiles|
      invariant forall p | p in positionMap :: positionMap[p].id !in removed
      invariant forall p :: p in positionMap <==> p in SimLive(tiles[..i], removed)
    {
      SimLiveStep(tiles, removed, i);
      var tile := tiles[i];
      if tile.id !in removed {
        positionMap := positionMap[tile.position := tile];
      }
    }
    assert tiles[..|tiles|] == tiles;
  }

  /** The scan of the nine cells above, stopping at the first live tile found. */
  method SimCoveredAbove(positionMap: map<Position, Tile>, removed: set<int32>, ghost live: set<Position>, pos: Position)
    returns (blockedAbove: bool)
    requires Occupies(positionMap, removed, live)
    ensures blockedAbove == CoveredAbove(live, pos)
  {
    blockedAbove := false;
    var dx: int32 := -1;
    while dx <= 1 && !blockedAbove
      invariant -1 <= dx <= 2
      invariant !blockedAbove ==>
                  forall dx': int32, dy': int32 | -1 <= dx' < dx && -1 <= dy' <= 1 :: Shift(pos, dx', dy', 1) !in live
      invariant blockedAbove ==> CoveredAbove(live, pos)
    {
      var dy: int32 := -1;
      while dy <= 1 && !blockedAbove
        invariant -1 <= dy <= 2
        invariant !blockedAbove ==> forall dy': int32 | -1 <= dy' < dy :: Shift(pos, dx, dy', 1) !in live
        invariant blockedAbove ==> CoveredAbove(live, pos)
      {
        var above := Shift(pos, dx, dy, 1);
        var aboveTile: Tile? := if above in positionMap then positionMap[above] else null;
        if aboveTile != null && aboveTile.id !in removed {
          blockedAbove := true;
        }
        dy := dy + 1;
      }
      dx := dx + 1;
    }
  }

  /** The scan of the three cells `dx` columns away, stopping at the first live tile found. */
  method SimSideBlocked(positionMap: map<Position, Tile>, removed: set<int32>, ghost live: set<Position>, pos: Position, dx: int32)
    returns (blocked: bool)
    requires Occupies(positionMap, removed, live)
    ensures blocked <==> exists dy: int32 | -1 <= dy <= 1 :: Shift(pos, dx, dy, 0) in live
  {
    blocked := false;
    var dy: int32 := -1;
    while dy <= 1
      invariant -1 <= dy <= 2
      invariant forall dy': int32 | -1 <= dy' < dy :: Shift(pos, dx, dy', 0) !in live
    {
      var side := Shift(pos, dx, dy, 0);
      var sideTile: Tile? := if side in positionMap then positionMap[side] else null;
      if sideTile != null && sideTile.id !in removed {
        blocked := true;
        break;
      }
      dy := dy + 1;
    }
  }

  /**
   * `getFreeTiles(tiles, removed)`: the tiles whose id is not in `removed`
   * and that are free among the cells of such tiles, in order.
   */
  method SimFreeTiles(tiles: seq<Tile>, removed: set<int32>) returns (freeTiles: seq<Tile>)
    ensures freeTiles == SimFree(tiles, removed)
  {
    var positionMap := SimPositionMap(tiles, removed);
    ghost var live := SimLive(tiles, removed);
    freeTiles := [];
    for i := 0 to |tiles|
      invariant freeTiles == SimFreeIn(tiles[..i], live, removed)
    {
      SimFreeStep(tiles, live, removed, i);
      var free := SimTileFree(positionMap, removed, live, tiles[i]);
      if free {
        freeTiles := freeTiles + [tiles[i]];
      }
    }
    assert tiles[..|tiles|] == tiles;
  }

  /** The body of the loop of `getFreeTiles(tiles, removed)` for one tile. */
  method SimTileFree(positionMap: map<Position, Tile>, removed: set<int32>, ghost live: set<Position>, tile: Tile)
    returns (free: bool)
    requires Occupies(positionMap, removed, live)
    ensures free == (tile.id !in removed && FreeAt(live, tile.position))
  {
    if tile.id in removed {
      return false;
    }
    var pos := tile.position;
    var blockedAbove := SimCoveredAbove(positionMap, removed, live, pos);
    if blockedAbove {
      return false;
    }
    var leftBlocked := SimSideBlocked(positionMap, removed, live, pos, -1);
    var rightBlocked := SimSideBlocked(positionMap, removed, live, pos, 1);
    return !leftBlocked || !rightBlocked;
  }

  /**
   * The simulator sees the board as the board itself does: when `removed`
   * holds exactly the ids of the removed tiles and no two tiles share a
   * cell, its occupied cells are the board's live cells and its free list
   * is the board's `getFreeTiles`.
   */
  lemma SimAgreesWithBoard(board: Board, removed: set<int32>)
    requires board.positionMap == PositionMapOf(board.tiles)
    requires DistinctPositions(board.tiles)
    requires forall t | t in board.tiles :: t.removed <==> t.id in removed
    ensures SimLive(board.tiles, removed) == board.Live()
    ensures SimFree(board.tiles, removed) == board.FreeTiles()
  {
    var tiles := board.tiles;
    LookupHoldsTiles(tiles);
    forall p ensures p in SimLive(tiles, removed) <==> p in board.Live() {
      if p in SimLive(tiles, removed) {
        var t :| t in tiles && t.id !in removed && t.position == p;
        var i :| 0 <= i < |tiles| && tiles[i] == t;
        LookupOfDistinct(tiles, i);
      }
      if p in board.Live() {
        var u := board.positionMap[p];
        assert u in tiles && u.position == p && !u.removed;
      }
    }
    FiltersAgree(board, tiles, removed);
  }

  lemma {:induction false} FiltersAgree(board: Board, ts: seq<Tile>, removed: set<int32>)
    requires forall t | t in ts :: t.removed <==> t.id in removed
    ensures SimFreeIn(ts, board.Live(), removed) == board.FreeIn(ts)
  {
    if |ts| > 0 {
      var front := ts[..|ts| - 1];
      assert forall t | t in front :: t in ts;
      FiltersAgree(board, front, removed);
    }
  }

  // ---------------------------------------------------------------------
  // isBoardSolvable and generateSolvableBoard
  // ---------------------------------------------------------------------

  /**
   * The class the simulator takes its pair from, in its order of search:
   * any kind with two free tiles, else the flowers, else the seasons.
   */
  ghost predicate Chosen(free: seq<Tile>, g: Group) {
    |OfGroup(free, g)| >= 2
    && (g.Exact?
        || ((forall k :: CountIn(Kinds(free), Exact(k)) < 2)
            && (g == AnySeason ==> CountIn(Kinds(free), AnyFlower) < 2)))
  }

  /**
   * One step of the simulation: the ids of the first two free tiles of a
   * chosen class are added to the removed set.
   */
  ghost predicate SimStep(tiles: seq<Tile>, before: set<int32>, after: set<int32>)
    reads tiles
  {
    var free := SimFree(tiles, before);
    exists g :: Chosen(free, g) && after == before + {OfGroup(free, g)[0].id, OfGroup(free, g)[1].id}
  }

  /** The removed sets a run goes through, from the empty set, one step at a time. */
  ghost predicate SimRun(tiles: seq<Tile>, history: seq<set<int32>>)
    reads tiles
  {
    |history| >= 1 && history[0] == {}
    && forall k | 0 <= k < |history| - 1 :: SimStep(tiles, history[k], history[k + 1])
  }

  /**
   * A whole run of `isBoardSolvable`: at most 100 steps, and a run that
   * stops early stops because no two free tiles match.
   */
  ghost predicate GreedyOutcome(tiles: seq<Tile>, history: seq<set<int32>>)
    reads tiles
  {
    SimRun(tiles, history) && |history| <= 101
    && (|history| == 101 || !HasMatchingPair(Kinds(SimFree(tiles, history[|history| - 1]))))
  }

  /**
   * The acceptance test `removed / total >= 0.8`, on integers; with no
   * tiles the quotient is NaN and the test fails.
   */
  predicate Accepts(removedCount: nat, total: nat) {
    total > 0 && 5 * removedCount >= 4 * total
  }

  /** The flower and season lists the simulator builds from the free tiles. */
  method CollectWildcards(freeTiles: seq<Tile>) returns (flowers: seq<Tile>, seasons: seq<Tile>)
    ensures flowers == OfGroup(freeTiles, AnyFlower)
    ensures seasons == OfGroup(freeTiles, AnySeason)
  {
    flowers, seasons := [], [];
    for n := 0 to |freeTiles|
      invariant flowers == OfGroup(freeTiles[..n], AnyFlower)
      invariant seasons == OfGroup(freeTiles[..n], AnySeason)
    {
      OfGroupStep(freeTiles, n, AnyFlower);
      OfGroupStep(freeTiles, n, AnySeason);
      var tile := freeTiles[n];
      if IsFlower(tile.kind) {
        flowers := flowers + [tile];
      }
      if IsSeason(tile.kind) {
        seasons := seasons + [tile];
      }
    }
    assert freeTiles[..|freeTiles|] == freeTiles;
  }

  /** Two members of one class match. */
  lemma SameGroupMatches(a: TileType, b: TileType, g: Group)
    requires InGroup(a, g) && InGroup(b, g)
    ensures CanMatch(a, b)
  {
  }

  /**
   * A step of `isBoardSolvable` on the free list: some kind whose group
   * holds two tiles (the map's iteration order is left open), else the
   * flowers, else the seasons; the first two tiles of the class chosen
   * are taken.  A pair is found iff two free tiles match.
   */
  method ChoosePair(freeTiles: seq<Tile>)
    returns (foundPair: bool, firstId: int32, secondId: int32, ghost i: nat, ghost j: nat, ghost g: Group)
    ensures foundPair <==> HasMatchingPair(Kinds(freeTiles))
    ensures foundPair ==>
              i < j < |freeTiles| && CanMatch(freeTiles[i].kind, freeTiles[j].kind)
              && firstId == freeTiles[i].id && secondId == freeTiles[j].id
              && |OfGroup(freeTiles, g)| >= 2
              && freeTiles[i] == OfGroup(freeTiles, g)[0] && freeTiles[j] == OfGroup(freeTiles, g)[1]
    ensures foundPair && !g.Exact? ==> forall k :: CountIn(Kinds(freeTiles), Exact(k)) < 2
    ensures foundPair && g == AnySeason ==> CountIn(Kinds(freeTiles), AnyFlower) < 2
  {
    ghost var ks := Kinds(freeTiles);
    PairByKindThenWildcard(ks);
    var typeGroups := GroupByKind(freeTiles);
    ghost var noKind := forall k :: CountIn(ks, Exact(k)) < 2;
    var group: seq<Tile> := [];
    if exists k | k in typeGroups :: |typeGroups[k]| >= 2 {
      var k :| k in typeGroups && |typeGroups[k]| >= 2;
      group := typeGroups[k];
      g := Exact(k);
    } else {
      assert noKind by {
        forall k ensures CountIn(ks, Exact(k)) < 2 {
          assert GroupSize(typeGroups, k) == CountIn(ks, Exact(k));
        }
      }
      var flowers, seasons := CollectWildcards(freeTiles);
      if |flowers| >= 2 {
        group, g := flowers, AnyFlower;
      } else {
        group, g := seasons, AnySeason;
      }
    }
    assert group == OfGroup(freeTiles, g);
    foundPair := |group| >= 2;
    firstId, secondId, i, j := 0, 0, 0, 0;
    if foundPair {
      i, j := OfGroupFirstTwo(freeTiles, g);
      SameGroupMatches(freeTiles[i].kind, freeTiles[j].kind, g);
      firstId, secondId := group[0].id, group[1].id;
    }
  }

  /** A run followed by one more chosen step is a run. */
  lemma RunExtends(tiles: seq<Tile>, history: seq<set<int32>>, free: seq<Tile>, g: Group, after: set<int32>)
    requires SimRun(tiles, history)
    requires free == SimFree(tiles, history[|history| - 1]) && Chosen(free, g)
    requires after == history[|history| - 1] + {OfGroup(free, g)[0].id, OfGroup(free, g)[1].id}
    ensures SimRun(tiles, history + [after])
  {
    var h := history + [after];
    assert SimStep(tiles, h[|history| - 1], h[|history|]);
    forall k | 0 <= k < |h| - 1 ensures SimStep(tiles, h[k], h[k + 1]) {
      if k < |history| - 1 {
        assert h[k] == history[k] && h[k + 1] == history[k + 1];
      }
    }
  }

  /**
   * `isBoardSolvable`: a greedy run of up to 100 steps over the board's
   * tiles, accepted when it removes at least four fifths of them.
   */
  method IsBoardSolvable(board: Board) returns (solvable: bool, ghost history: seq<set<int32>>)
    ensures GreedyOutcome(board.tiles, history)
    ensures solvable == Accepts(|history[|history| - 1]|, |board.tiles|)
  {
    var tiles := board.tiles;
    var removed: set<int32> := {};
    history := [{}];
    for step := 0 to 100
      invariant SimRun(tiles, history) && |history| == step + 1 && history[step] == removed
    {
      var freeTiles := SimFreeTiles(tiles, removed);
      if |freeTiles| == 0 {
        break;
      }
      var foundPair, firstId, secondId, i, j, g := ChoosePair(freeTiles);
      if !foundPair {
        break;
      }
      ghost var before := removed;
      removed := removed + {firstId, secondId};
      RunExtends(tiles, history, freeTiles, g, removed);
      history := history + [removed];
    }
    solvable := |tiles| > 0 && 5 * |removed| >= 4 * |tiles|;
  }

  /** Some run of the simulation over `tiles` is accepted. */
  ghost predicate PassesSimulation(tiles: seq<Tile>)
    reads tiles
  {
    exists h :: GreedyOutcome(tiles, h) && Accepts(|h[|h| - 1]|, |tiles|)
  }

  /**
   * `generateSolvableBoard`: up to 100 dealt boards, the first one the
   * simulation accepts; failing that, one more deal, unchecked.
   */
  method GenerateSolvableBoard(layout: Layout, difficulty: Difficulty) returns (board: Board, ghost accepted: bool)
    ensures fresh(board) && forall t | t in board.tiles :: fresh(t)
    ensures DealtFrom(board, layout)
    ensures forall t :: multiset(Kinds(board.tiles))[t] % 2 == 0
    ensures |layout.positions| / 2 <= MAX_PAIRS_PER_TYPE * 42 ==>
              forall t :: multiset(Kinds(board.tiles))[t] <= 2 * MAX_PAIRS_PER_TYPE
    ensures accepted ==> PassesSimulation(board.tiles)
  {
    var maxAttempts := 100;
    for attempt := 0 to maxAttempts {
      board := GenerateBoard(layout, difficulty);
      var solvable;
      ghost var history;
      solvable, history := IsBoardSolvable(board);
      if solvable {
        return board, true;
      }
    }
    board := GenerateBoard(layout, difficulty);
    accepted := false;
  }

  // ---------------------------------------------------------------------
  // What a run removes
  // ---------------------------------------------------------------------

  /** No two entries share an id, as the tiles of a dealt board. */
  predicate DistinctIds(ts: seq<Tile>) {
    forall i, j | 0 <= i < j < |ts| :: ts[i].id != ts[j].id
  }

  /** The ids of the entries of `ts`. */
  function IdsOf(ts: seq<Tile>): set<int32> {
    set t | t in ts :: t.id
  }

  /** A dealt board numbers its tiles 0, 1, 2, ..., so their ids are distinct. */
  lemma DealtIdsAreDistinct(board: Board, layout: Layout)
    requires DealtFrom(board, layout)
    ensures DistinctIds(board.tiles)
  {
  }

  /** There are no more ids than entries. */
  lemma {:induction false} IdsAtMostEntries(ts: seq<Tile>)
    ensures |IdsOf(ts)| <= |ts|
  {
    if |ts| > 0 {
      var front := ts[..|ts| - 1];
      IdsAtMostEntries(front);
      assert ts == front + [ts[|ts| - 1]];
      assert IdsOf(ts) == IdsOf(front) + {ts[|ts| - 1].id};
    }
  }

  /** Filtering keeps ids distinct. */
  lemma {:induction false} SimFreeDistinct(ts: seq<Tile>, live: set<Position>, removed: set<int32>)
    requires DistinctIds(ts)
    ensures DistinctIds(SimFreeIn(ts, live, removed))
  {
    if |ts| > 0 {
      var front := ts[..|ts| - 1];
      var t := ts[|ts| - 1];
      assert DistinctIds(front) by {
        forall i, j | 0 <= i < j < |front| ensures front[i].id != front[j].id {
          assert front[i] == ts[i] && front[j] == ts[j];
        }
      }
      SimFreeDistinct(front, live, removed);
      SimFreeMembers(front, live, removed);
      var f := SimFreeIn(front, live, removed);
      forall u | u in f ensures u.id != t.id {
        var k :| 0 <= k < |front| && front[k] == u;
        assert ts[k] == u;
      }
      var r := SimFreeIn(ts, live, removed);
      forall i, j | 0 <= i < j < |r| ensures r[i].id != r[j].id {
        if j < |f| {
          assert r[i] == f[i] && r[j] == f[j];
        } else {
          assert r[i] == f[i] && r[i] in f && r[j] == t;
        }
      }
    }
  }

  /** The first two members of a chosen class, with distinct ids, are two different matching entries. */
  lemma {:induction false} ChosenPair(free: seq<Tile>, g: Group) returns (i: nat, j: nat)
    requires DistinctIds(free) && Chosen(free, g)
    ensures i < j < |free| && CanMatch(free[i].kind, free[j].kind)
    ensures free[i] == OfGroup(free, g)[0] && free[j] == OfGroup(free, g)[1]
    ensures free[i].id != free[j].id
  {
    i, j := OfGroupFirstTwo(free, g);
    SameGroupMatches(free[i].kind, free[j].kind, g);
  }

  /** Adding two new, different ids grows a set by two. */
  lemma AddTwoNew(before: set<int32>, a: int32, b: int32)
    requires a !in before && b !in before && a != b
    ensures |before + {a, b}| == |before| + 2
  {
    assert before + {a, b} == (before + {a}) + {b};
  }

  /**
   * Under distinct ids a step removes two different tiles that were free,
   * not removed before, and match, so the removed set grows by two.
   */
  lemma StepRemovesFreePair(tiles: seq<Tile>, before: set<int32>, after: set<int32>)
    returns (i: nat, j: nat)
    requires DistinctIds(tiles) && SimStep(tiles, before, after)
    ensures i < j < |SimFree(tiles, before)|
    ensures CanMatch(SimFree(tiles, before)[i].kind, SimFree(tiles, before)[j].kind)
    ensures SimFree(tiles, before)[i].id !in before && SimFree(tiles, before)[j].id !in before
    ensures FreeAt(SimLive(tiles, before), SimFree(tiles, before)[i].position)
    ensures FreeAt(SimLive(tiles, before), SimFree(tiles, before)[j].position)
    ensures after == before + {SimFree(tiles, before)[i].id, SimFree(tiles, before)[j].id}
    ensures |after| == |before| + 2
    ensures after <= before + IdsOf(tiles)
  {
    var live := SimLive(tiles, before);
    var free := SimFree(tiles, before);
    var g :| Chosen(free, g) && after == before + {OfGroup(free, g)[0].id, OfGroup(free, g)[1].id};
    SimFreeDistinct(tiles, live, before);
    i, j := ChosenPair(free, g);
    SimFreeMembers(tiles, live, before);
    var a, b := free[i], free[j];
    assert a in free && b in free;
    assert a in tiles && b in tiles;
    AddTwoNew(before, a.id, b.id);
  }

  /**
   * Under distinct ids, after `k` steps exactly `2k` ids are removed, all of
   * them ids of the board's tiles; so a run never removes more tiles than
   * there are.
   */
  lemma {:induction false} RunRemovesTwoPerStep(tiles: seq<Tile>, history: seq<set<int32>>)
    requires DistinctIds(tiles) && SimRun(tiles, history)
    ensures forall k | 0 <= k < |history| :: |history[k]| == 2 * k && history[k] <= IdsOf(tiles)
    ensures 2 * (|history| - 1) <= |tiles|
  {
    var n := |history|;
    if n > 1 {
      var front := history[..n - 1];
      RunPrefix(tiles, history);
      RunRemovesTwoPerStep(tiles, front);
      assert SimStep(tiles, history[n - 2], history[n - 1]);
      var i, j := StepRemovesFreePair(tiles, history[n - 2], history[n - 1]);
      assert front[n - 2] == history[n - 2];
      forall k | 0 <= k < n - 1 ensures |history[k]| == 2 * k && history[k] <= IdsOf(tiles) {
        assert history[k] == front[k];
      }
    }
    IdsAtMostEntries(tiles);
    assert |history[n - 1]| <= |IdsOf(tiles)| by {
      SubsetSize(history[n - 1], IdsOf(tiles));
    }
  }

  /** A run without its last step is a run. */
  lemma RunPrefix(tiles: seq<Tile>, history: seq<set<int32>>)
    requires SimRun(tiles, history) && |history| > 1
    ensures SimRun(tiles, history[..|history| - 1])
  {
    var front := history[..|history| - 1];
    forall k | 0 <= k < |front| - 1 ensures SimStep(tiles, front[k], front[k + 1]) {
      assert SimStep(tiles, history[k], history[k + 1]);
    }
  }

  lemma SubsetSize(a: set<int32>, b: set<int32>)
    requires a <= b
    ensures |a| <= |b|
  {
    assert b == a + (b - a);
  }
}
