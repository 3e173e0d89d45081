# Mahjong solitaire core, modelled in Dafny

This project models the game logic of an Android mahjong solitaire app:

- **Tile kinds and matching.** There are 42 tile kinds. Two tiles can be removed together when they are the same kind, both flowers, or both seasons.
- **Positions.** A position is a cell of a three-dimensional board, with Java's 32-bit `hashCode`.
- **Tiles.** A tile has a fixed id, kind and position, plus `selected` and `removed` flags.
- **Layouts** and the **layout catalog** with its lookups.
- **Game configuration:** difficulty, layout mode, fixed layout id and progressive index.
- **The board.** It holds the tiles, a lookup from cells to tiles, and the current selection. It implements:
  - the freedom rule: nothing covers the tile from above, and it has an open left or right side;
  - pair removal;
  - the won test and the stuck test.
- **The board generator.** It deals kinds in pairs, builds a board from a layout, and uses a greedy solvability simulation to screen boards.
- **The game manager.** It picks a layout, deals a board, routes tile taps through selection and removal, counts wins and games played, gives hints, and takes snapshots.

Each source file becomes one module:

| Source files | Module | Form of the model |
|---|---|---|
| `TileType`, `Position`, `Layout` | `TileTypes`, `Positions`, `Layouts` | values and functions |
| `Tile`, `GameConfig`, `Board` | `Tiles`, `Config`, `Boards` | classes whose methods update fields |
| `BoardGenerator` | `BoardGenerators` | methods with loops, proved against ghost specification functions |
| `GameManager` | `GameManagers` | a class whose methods are proved against the board's rules and the catalog functions |
| `LayoutCatalog` | `LayoutCatalog` | functions over an abstract, non-empty list of layouts |

Four support modules:

- `JavaInt` gives Java's `int` and `long`, their wrap-around, and Java's `%` for a positive divisor.
- `Wrappers` gives `Option`.
- `MatchGroups` states the match rule as a partition into classes and counts class members.
- `Freedom` states the freedom rule once, over the set of live cells.

The board's own freedom test and the simulator's separate implementation are both proved to compute `Freedom.FreeAt`. `BoardGenerators.SimAgreesWithBoard` proves the two give the same free tiles on a dealt board.

Where the source's comments or design notes disagree with its code, the model follows the code:

- `selectLayout` in progressive mode uses Java's remainder `%`, not a mathematical modulus. Once the progressive index wraps to a negative value, the remainder is negative or zero, and `getLayoutByIndex` then falls back to the first layout (`GameManagers.ProgressiveCycles`).
- The fallback of `generateSolvableBoard` is described as "the last generated board". The code deals a 101st board instead, and the model does the same.
- The comment on `maxPairsPerType` reads "4 of each tile", but the cap is 4 pairs. A kind can therefore appear 8 times, and more once the 42 kinds wrap around (more than 168 pairs).

## Model

| member | source | states |
|---|---|---|
| TileTypes.Values | app/src/main/java/com/mahjongink/model/TileType.java:14-37 | there are 42 variants, listed in declaration order, each at its own ordinal |
| TileTypes.SuitByDeclarationOrder | app/src/main/java/com/mahjongink/model/TileType.java:68-78 | the name-prefix chain of `getSuit` gives each declaration band its suit. It never yields UNKNOWN, and the suit is FLOWER (or SEASON) exactly for the flower (or season) kinds |
| TileTypes.NumberedNames | app/src/main/java/com/mahjongink/model/TileType.java:16-25 | the i-th character, bamboo and circle kinds are named `CHARACTER_i`, `BAMBOO_i` and `CIRCLE_i` |
| TileTypes.ValueOf | app/src/main/java/com/mahjongink/model/TileType.java:14-37 | `valueOf` returns a variant carrying exactly that name. It returns none, where Java throws, only when no variant has that name |
| TileTypes.NameDecodes | app/src/main/java/com/mahjongink/model/TileType.java:14-37 | a variant's name determines its ordinal |
| TileTypes.NameInjective | app/src/main/java/com/mahjongink/model/TileType.java:14-37 | two variants with the same name are the same variant |
| TileTypes.ValueOfName | app/src/main/java/com/mahjongink/model/TileType.java:14-37 | `valueOf(name())` gives the variant back |
| MatchGroups.ClassOf | app/src/main/java/com/mahjongink/model/TileType.java:43-63 | every kind's class contains it, and a kind matches exactly the members of its class |
| MatchGroups.MatchIsSameClass | app/src/main/java/com/mahjongink/model/TileType.java:43-53 | `canMatch` holds iff the two classes are equal, so it is reflexive and symmetric |
| MatchGroups.MatchIsTransitive | app/src/main/java/com/mahjongink/model/TileType.java:43-53 | `canMatch` is transitive |
| MatchGroups.CountTwo | app/src/main/java/com/mahjongink/model/TileType.java:43-53 | a class has at least two members in a list iff two different positions of the list hold members |
| MatchGroups.PairByClass | app/src/main/java/com/mahjongink/model/TileType.java:43-53 | a list holds a matching pair iff some entry's class has two members in it |
| MatchGroups.PairByKindOrWildcard | app/src/main/java/com/mahjongink/model/Board.java:173-211 | the per-kind test of `isGameStuck` (two copies, or two flowers for a flower, or two seasons for a season) succeeds for some present kind iff a matching pair exists |
| MatchGroups.PairByKindThenWildcard | app/src/main/java/com/mahjongink/logic/BoardGenerator.java:191-225 | the simulator's search order (a kind with two copies, else two flowers, else two seasons) finds something iff a matching pair exists |
| MatchGroups.FlowerCount | app/src/main/java/com/mahjongink/model/Board.java:189-194 | the flower count is the sum of the counts of the four flower kinds |
| MatchGroups.SeasonCount | app/src/main/java/com/mahjongink/model/Board.java:202-207 | the season count is the sum of the counts of the four season kinds |
| MatchGroups.CountIsMultiplicity | app/src/main/java/com/mahjongink/model/Board.java:164-171 | counting a kind's own class counts its occurrences |
| Positions.HashCode | app/src/main/java/com/mahjongink/model/Position.java:63-69 | the two-step fold with factor 31 equals 961x + 31y + z wrapped to 32 bits |
| Positions.EqualsIsIdentity | app/src/main/java/com/mahjongink/model/Position.java:55-61 | coordinate-wise `equals` is value identity, hence reflexive and symmetric |
| Positions.EqualsAgreesWithHash | app/src/main/java/com/mahjongink/model/Position.java:55-69 | equal positions have equal hash codes |
| Positions.HashCollides | app/src/main/java/com/mahjongink/model/Position.java:63-69 | the different positions (0,1,0) and (0,0,31) share a hash code |
| Freedom.FreedomIsMonotone | app/src/main/java/com/mahjongink/model/Board.java:70-110 | removing tiles never takes freedom away from a free tile |
| Freedom.FreedomIsLocal | app/src/main/java/com/mahjongink/model/Board.java:70-110 | freedom depends only on the cells next to and above the tile |
| Freedom.LoneTileIsFree | app/src/main/java/com/mahjongink/model/Board.java:70-110 | a tile with nothing around it is free, even at the edges of the int range |
| Freedom.SquareIsAllFree | app/src/test/java/com/mahjongink/model/BoardTest.java:19-56 | the test board, a single-layer 2 x 2 square, has all four tiles free. This is one fixed example, the board of the unit test, not a property of all boards |
| Freedom.TopTileCovers | app/src/test/java/com/mahjongink/model/BoardTest.java:58-70 | the test board with a fifth tile at (0,0,1): that tile covers all four square tiles and is itself free. This is one fixed example, the scenario of the unit test, not a property of all boards |
| Tiles.Tile.constructor | app/src/main/java/com/mahjongink/model/Tile.java:16-22 | a new tile has the given id, kind and position, and is neither selected nor removed |
| Tiles.Tile.SetPosition | app/src/main/java/com/mahjongink/model/Tile.java:36-38 | sets the position and leaves the flags alone |
| Tiles.Tile.SetSelected | app/src/main/java/com/mahjongink/model/Tile.java:44-46 | sets `selected` and leaves the position and `removed` alone |
| Tiles.Tile.SetRemoved | app/src/main/java/com/mahjongink/model/Tile.java:52-54 | sets `removed` and leaves the position and `selected` alone |
| Tiles.CanMatchWithRule | app/src/main/java/com/mahjongink/model/Tile.java:59-62 | `canMatchWith` never pairs with a missing or removed tile, is symmetric, and otherwise is `canMatch` on the kinds |
| Tiles.EqualsIsById | app/src/main/java/com/mahjongink/model/Tile.java:70-81 | tile equality is an equivalence. Tiles are equal iff their hash codes (their ids) are equal |
| Tiles.GroupByKind | app/src/main/java/com/mahjongink/model/Board.java:163-171 | grouping by kind maps each kind present to its tiles, in order, and has no entry for a kind not present |
| Tiles.OfGroupFirstTwo | app/src/main/java/com/mahjongink/logic/BoardGenerator.java:193-224 | the first two members of a class list are two entries of the input, in input order |
| Layouts.ValidIsWholePairs | app/src/main/java/com/mahjongink/model/Layout.java:48-57 | a layout is valid iff its tile count is 2k for some k >= 1 |
| Config.GameConfig.constructor | app/src/main/java/com/mahjongink/model/GameConfig.java:38-43 | the defaults are MEDIUM, RANDOM, no fixed id, and index 0 |
| Config.GameConfig.SetDifficulty | app/src/main/java/com/mahjongink/model/GameConfig.java:49-51 | sets the difficulty, and nothing else changes |
| Config.GameConfig.SetLayoutMode | app/src/main/java/com/mahjongink/model/GameConfig.java:57-59 | sets the mode, and nothing else changes |
| Config.GameConfig.SetFixedLayoutId | app/src/main/java/com/mahjongink/model/GameConfig.java:65-67 | sets the fixed id (or none), and nothing else changes |
| Config.GameConfig.SetProgressiveIndex | app/src/main/java/com/mahjongink/model/GameConfig.java:73-75 | sets the index, and nothing else changes |
| Config.GameConfig.AdvanceProgressive | app/src/main/java/com/mahjongink/model/GameConfig.java:77-79 | the index goes up by one, except that MAX_INT wraps to MIN_INT |
| Boards.Board.constructor | app/src/main/java/com/mahjongink/model/Board.java:23-33 | the board keeps the tiles, builds the lookup by putting each tile under its cell in turn, and selects nothing |
| Boards.LastPutWins | app/src/main/java/com/mahjongink/model/Board.java:29-32 | every tile's cell is a key of the lookup. It leads back to that tile unless a later tile shares the cell |
| Boards.LookupOfDistinct | app/src/main/java/com/mahjongink/model/Board.java:29-32 | when no two tiles share a cell, each tile is what its cell looks up |
| Boards.Board.GetTileAt | app/src/main/java/com/mahjongink/model/Board.java:43-45 | returns a tile iff the cell is a key, and that tile is one of the board's tiles |
| Boards.Board.IsTileFree | app/src/main/java/com/mahjongink/model/Board.java:70-110 | the nine cells above, then the left and right columns, are scanned. The result is the freedom rule on the live cells, and false for a missing or removed tile |
| Boards.Board.ScanColumn | app/src/main/java/com/mahjongink/model/Board.java:86-106 | a side column is blocked iff one of its three cells holds a live tile |
| Boards.Board.FreeInMembers | app/src/main/java/com/mahjongink/model/Board.java:115-123 | the free list holds exactly the entries that are free |
| Boards.Board.GetFreeTiles | app/src/main/java/com/mahjongink/model/Board.java:115-123 | returns the free tiles in board order |
| Boards.Board.SetSelectedTile | app/src/main/java/com/mahjongink/model/Board.java:51-62 | the old selection's flag is cleared and the new tile (or nothing) is selected with its flag set. No tile's position or `removed` flag changes |
| Boards.Board.RemovePair | app/src/main/java/com/mahjongink/model/Board.java:129-145 | succeeds iff the two tiles are present, have different ids, can match and are both free. Then both are marked removed and a selection that was one of them is dropped. Otherwise nothing changes, and no `selected` flag changes in either case |
| Boards.Board.IsGameWon | app/src/main/java/com/mahjongink/model/Board.java:150-155 | true iff every tile is removed |
| Boards.WildcardTestsAgree | app/src/main/java/com/mahjongink/model/Board.java:183-208 | the flower and season branches of `isGameStuck` (a `canMatch` test with FLOWER_PLUM or SEASON_SPRING, a key test, and a sum of group sizes) hold iff the kind is a flower (or season) and two flowers (or seasons) are free |
| Boards.KindHasPair | app/src/main/java/com/mahjongink/model/Board.java:180-208 | the test for one kind finds a pair iff that kind has two copies, or two flowers for a flower, or two seasons for a season |
| Boards.ScanForPair | app/src/main/java/com/mahjongink/model/Board.java:173-209 | the `checkedTypes` loop finds a pair iff the test succeeds for the kind of some free tile |
| Boards.Board.IsGameStuck | app/src/main/java/com/mahjongink/model/Board.java:160-212 | true iff no two different free tiles can be matched |
| Boards.NoneRemainingIffAllRemoved | app/src/main/java/com/mahjongink/model/Board.java:150-155 | the remaining count is zero iff every tile is removed |
| Boards.Board.GetRemainingTileCount | app/src/main/java/com/mahjongink/model/Board.java:217-223 | returns the number of tiles not removed |
| BoardGenerators.AvailableTileTypes | app/src/main/java/com/mahjongink/logic/BoardGenerator.java:118-160 | every kind appears exactly once, in declaration order. The numbered bands are found by their names `CHARACTER_i`, `BAMBOO_i` and `CIRCLE_i` |
| BoardGenerators.Shuffle | app/src/main/java/com/mahjongink/logic/BoardGenerator.java:89-90 | the result is a permutation of the input |
| BoardGenerators.DealPairs | app/src/main/java/com/mahjongink/logic/BoardGenerator.java:93-107 | the pair loop deals each kind twice per pair. After four pairs it moves to the next kind and wraps around at the end |
| BoardGenerators.PairedEntries | app/src/main/java/com/mahjongink/logic/BoardGenerator.java:97-100 | entries 2k and 2k+1 are the same kind, the k-th pair's kind |
| BoardGenerators.PairsBeforeWrap | app/src/main/java/com/mahjongink/logic/BoardGenerator.java:93-107 | before wrapping, the kind at place idx gets between 0 and 4 pairs, namely n - 4*idx clamped to that range |
| BoardGenerators.PairedMultiplicities | app/src/main/java/com/mahjongink/logic/BoardGenerator.java:93-107 | each kind's multiplicity is twice its pair count, and at most 8 for up to 168 pairs |
| BoardGenerators.GenerateTileDistribution | app/src/main/java/com/mahjongink/logic/BoardGenerator.java:80-113 | the result is a permutation of the paired deal of some order of all 42 kinds. It has 2*(n/2) entries, every kind appears an even number of times, and at most 8 times for up to 168 pairs |
| BoardGenerators.CreateTiles | app/src/main/java/com/mahjongink/logic/BoardGenerator.java:49-54 | tile i is new, has id i, the i-th kind and the i-th cell, and is neither selected nor removed |
| BoardGenerators.GenerateBoard | app/src/main/java/com/mahjongink/logic/BoardGenerator.java:38-57 | the board is new and dealt from the layout (an odd last cell is dropped, tile i sits on cell i, and the lookup is built), with every kind present an even number of times |
| BoardGenerators.SimTileFree | app/src/main/java/com/mahjongink/logic/BoardGenerator.java:249-292 | the simulator's test of one tile is the freedom rule on the cells of the tiles not removed |
| BoardGenerators.SimFreeTiles | app/src/main/java/com/mahjongink/logic/BoardGenerator.java:239-296 | returns the tiles not removed that are free at their cells, in order |
| BoardGenerators.SimAgreesWithBoard | app/src/main/java/com/mahjongink/logic/BoardGenerator.java:239-296 | on a board with distinct cells, when the removed ids are the removed flags, the simulator's live cells and free tiles are the board's |
| BoardGenerators.CollectWildcards | app/src/main/java/com/mahjongink/logic/BoardGenerator.java:206-212 | builds the lists of free flowers and free seasons, in order |
| BoardGenerators.ChoosePair | app/src/main/java/com/mahjongink/logic/BoardGenerator.java:182-225 | a pair is found iff the free tiles hold a matching pair. The pair is the first two tiles of one class: a kind with two copies first, else flowers, else seasons |
| BoardGenerators.IsBoardSolvable | app/src/main/java/com/mahjongink/logic/BoardGenerator.java:166-237 | the run is a greedy simulation that stops after 100 steps or when no pair is free. The verdict is "at least 80% of the tiles removed" |
| BoardGenerators.GenerateSolvableBoard | app/src/main/java/com/mahjongink/logic/BoardGenerator.java:63-75 | the board is a new deal from the layout. Every kind appears an even number of times, and at most 8 times for up to 168 pairs. When the board was accepted, some greedy run over it removes at least 80% of the tiles |
| BoardGenerators.DealtIdsAreDistinct | app/src/main/java/com/mahjongink/logic/BoardGenerator.java:49-54 | the tiles of a dealt board have pairwise different ids |
| BoardGenerators.StepRemovesFreePair | app/src/main/java/com/mahjongink/logic/BoardGenerator.java:191-224 | a simulation step removes two different free tiles that match and were not yet removed. The removed set grows by exactly two |
| BoardGenerators.RunRemovesTwoPerStep | app/src/main/java/com/mahjongink/logic/BoardGenerator.java:175-230 | after k steps 2k ids of the board's tiles are removed, so a run has at most tiles/2 steps |
| LayoutCatalog.Registered | app/src/main/java/com/mahjongink/logic/LayoutCatalog.java:22-62 | the 16 registered layouts carry the registered ids, in order, with their cells |
| LayoutCatalog.GetLayoutCount | app/src/main/java/com/mahjongink/logic/LayoutCatalog.java:84-86 | the count is positive and is the catalog's size |
| LayoutCatalog.GetLayoutByIndex | app/src/main/java/com/mahjongink/logic/LayoutCatalog.java:77-82 | an index in range gives that layout. A negative or too large index gives the first layout |
| LayoutCatalog.GetIndexById | app/src/main/java/com/mahjongink/logic/LayoutCatalog.java:88-95 | returns the smallest index holding that id, or 0 when no layout has it |
| LayoutCatalog.GetLayoutById | app/src/main/java/com/mahjongink/logic/LayoutCatalog.java:68-75 | returns a layout with that id when one exists, else the first layout |
| LayoutCatalog.ScansAgree | app/src/main/java/com/mahjongink/logic/LayoutCatalog.java:68-95 | the two scans agree from any starting point |
| LayoutCatalog.ByIndexOfIndexById | app/src/main/java/com/mahjongink/logic/LayoutCatalog.java:68-95 | `getLayoutByIndex(getIndexById(id))` is `getLayoutById(id)` |
| LayoutCatalog.DistinctIdsFoundInPlace | app/src/main/java/com/mahjongink/logic/LayoutCatalog.java:68-95 | with pairwise different ids, every layout is found by its id at its own index |
| LayoutCatalog.RegisteredLookups | app/src/main/java/com/mahjongink/logic/LayoutCatalog.java:22-62 | the registered catalog has 16 layouts, and each registered id is found at its registration index |
| GameManagers.ProgressiveCycles | app/src/main/java/com/mahjongink/logic/GameManager.java:205-207 | a non-negative index gives layout index % count, and a negative one the first layout |
| GameManagers.FirstMatchingPair | app/src/main/java/com/mahjongink/logic/GameManager.java:221-230 | the double loop finds the first matching pair in row order, and finds one iff a matching pair exists |
| GameManagers.TileStateRestores | app/src/main/java/com/mahjongink/logic/GameManager.java:242-249 | a saved tile gives back the tile's id, kind (through `valueOf` of the saved name), cell and removed flag |
| GameManagers.DealFor | app/src/main/java/com/mahjongink/logic/GameManager.java:78-84 | HARD deals unscreened. Other difficulties deal through the solvable generator, and a screened board passes the simulation. Either way every kind appears an even number of times, and at most 8 times for up to 168 pairs |
| GameManagers.GameManager.constructor | app/src/main/java/com/mahjongink/logic/GameManager.java:36-41 | a new session has the default config, no board, no listener, and nothing counted |
| GameManagers.GameManager.SetListener | app/src/main/java/com/mahjongink/logic/GameManager.java:43-45 | attaches or detaches the listener and changes nothing else |
| GameManagers.GameManager.SetConfig | app/src/main/java/com/mahjongink/logic/GameManager.java:51-53 | replaces the config and changes nothing else |
| GameManagers.GameManager.SelectLayout | app/src/main/java/com/mahjongink/logic/GameManager.java:192-211 | FIXED with an id looks the id up. FIXED without an id, and RANDOM, pick any catalog layout. PROGRESSIVE takes the index formed with Java's `%` |
| GameManagers.GameManager.StartNewGame | app/src/main/java/com/mahjongink/logic/GameManager.java:74-94 | the new board is dealt from the chosen layout, screened unless the difficulty is HARD. Every kind appears an even number of times, and at most 8 times for up to 168 pairs. The clock starts, a game is counted, and "layout changed" then "game started" are announced |
| GameManagers.GameManager.StartNewGameWith | app/src/main/java/com/mahjongink/logic/GameManager.java:99-103 | the config switches to FIXED with that id (or with none, for Java's null), and everything else in it stays the same. A game then starts on the layout the id looks up, or on any catalog layout when there is no id, with the same dealing guarantees as `startNewGame` |
| GameManagers.GameManager.CheckGameState | app/src/main/java/com/mahjongink/logic/GameManager.java:169-187 | a won board counts a win, advances the progressive index in that mode, and announces the win with the wrapped elapsed time. A stuck board announces a loss. Anything else changes nothing |
| GameManagers.GameManager.OnTileSelected | app/src/main/java/com/mahjongink/logic/GameManager.java:108-164 | each tap branch is covered:<br>(1) nothing changes without a board, or for a removed or non-free tile;<br>(2) a null tile only triggers the state check, and the board and its selection stay as they were;<br>(3) with no selection, the tile becomes the selection with its flag set;<br>(4) the same id deselects and clears the old selection's flag;<br>(5) a removable pair is removed, announced and checked. Because the board already dropped the selection, both tiles keep their `selected` flags;<br>(6) otherwise the tile becomes the sole selection and the old selection's flag is cleared.<br>Outside (5) no `removed` flag, position or config setting changes, and in (5) only the progressive index may change. The result is true iff a pair was removed |
| GameManagers.GameManager.GetHint | app/src/main/java/com/mahjongink/logic/GameManager.java:216-233 | there is no hint without a board. Otherwise there is a hint iff the board is not stuck, and it is the first matching pair of free tiles in row order |
| GameManagers.GameManager.SaveGameState | app/src/main/java/com/mahjongink/logic/GameManager.java:238-265 | there is no snapshot without a board. Otherwise the snapshot holds the layout id, one saved tile per tile in board order, the selected id (-1 when nothing is selected), the wrapped elapsed time and the start time |

## Left out

- Randomness:
  - `Collections.shuffle` is modelled as an arbitrary permutation (`BoardGenerators.Shuffle`). Its seeded pseudo-random generator, and the `BoardGenerator(long seed)` constructor, are not modelled.
  - `Math.random()` in `selectLayout` is modelled as an arbitrary in-range index.
- `System.currentTimeMillis()` becomes a `now` parameter of the operations that read the clock.
- The `GameListener` interface becomes an event log: a callback is appended only when a listener is attached. `SetListener` therefore takes a flag, not a listener object.
- HashMap iteration order in `isBoardSolvable` is not modelled. The simulator may pick any kind with two free copies.
- The groups of `isGameStuck` are the same whatever the map's order, so nothing is lost there.
- BoardGenerators.IsBoardSolvable restates the float test `removed / total >= 0.8f` over integers as `5 * removed >= 4 * total` with `total > 0`. The two can differ only through float rounding of the quotient, for boards of millions of tiles. An empty board is rejected, as the float division gives NaN.
- BoardGenerators.GenerateSolvableBoard: the ghost `accepted` flag only says that an accepted board passes the simulation. It does not say that the fallback board is produced only after 100 rejections, because rejected boards are not kept.
- The `movesAvailable` and `totalMoves` counters of `isBoardSolvable` are written but never read, so they are not modelled.
- The `difficulty` parameter of `generateBoard` and `generateTileDistribution` is passed along but never used.
- `GameConfig.Difficulty.getSolvableThreshold` is never called by the core, so it is not modelled.
- The private `isFlower` and `isSeason` of `BoardGenerator` are the same predicates as `TileTypes.IsFlower` and `TileTypes.IsSeason`, and are not modelled separately.
- The coordinate tables of the 16 registered layouts (`createPyramidLayout` and the other builders) are parameters of `LayoutCatalog.Registered`. Only their ids, names, descriptions and difficulties are written out.
- `getAllLayouts` returns the catalog itself, which is the `catalog` sequence; it has no separate member.
- `restoreGameState` has an empty body in the source, so it is not modelled. What a restore would need is stated by `GameManagers.TileStateRestores`.
- The getters, `toString`, `Position.getScreenX` and `getScreenY` (floating point, for drawing), and the view and activity classes are not modelled.
- The `GameBoardView`, `MainActivity` and `LayoutSelectionActivity` classes are not part of this model.
- TileTypes.ValueOf returns none where Java's `TileType.valueOf` throws `IllegalArgumentException` for an unknown name. No exception is modelled, and the only caller, `getAvailableTileTypes`, passes names that are always found (`BoardGenerators.AvailableTileTypes`).
- GameManagers.GameManager.StartNewGameWith takes an `Option<string>`. A Java `null` id is `None`: the mode becomes FIXED with no id, so `selectLayout` falls through to a random layout.
- `GameState` is modelled as a value; its Java record class is not part of this model.
- Layouts.TileCount is the list size as a Java `int`. A position list is bounded by MAX_INT entries, as a Java list is.
- Board and tile identity:
  - a `Tile` reference in the source is a `Tile?` object reference here;
  - the board's tile list is a `seq` the board never reassigns, so `getTiles` is the field itself.
