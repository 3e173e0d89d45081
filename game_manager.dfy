/**
 * The game session: it picks a layout, deals a board, routes tile taps
 * through selection and removal, counts games played and won, finds hints
 * and takes snapshots.  Listener callbacks are recorded in an event log;
 * the clock and `Math.random` are parameters and choices.
 */
module GameManagers {
  import opened JavaInt
  import opened Wrappers
  import opened TileTypes
  import opened MatchGroups
  import opened Positions
  import opened Tiles
  import opened Layouts
  import opened Config
  import opened Boards
  import opened LayoutCatalog
  import opened BoardGenerators

  /** A `GameListener` callback, with its arguments. */
  datatype Event =
    | LayoutChanged(layout: Layout)
    | GameStarted(board: Board)
    | GameWon(board: Board, timeMs: int64)
    | GameLost(board: Board)
    | TileSelected(tile: Tile?)
    | TilesRemoved(first: Tile, second: Tile)

  /** How `checkGameState` finds a board. */
  datatype Verdict = Won | Lost | Ongoing

  /** A saved tile: id, kind name, cell and removed flag. */
  datatype TileState = TileState(id: int32, typeName: string, x: int32, y: int32, z: int32, removed: bool)

  /** A saved game. */
  datatype GameState = GameState(
    layoutId: string,
    tileStates: seq<TileState>,
    selectedTileId: int32,
    elapsedTimeMs: int64,
    startTimeMs: int64)

  /** Won when every tile is removed; otherwise lost when no free pair matches. */
  function VerdictOf(board: Board): Verdict
    reads board.tiles, board.positionMap.Values
  {
    if forall t | t in board.tiles :: t.removed then Won
    else if board.IsStuck() then Lost
    else Ongoing
  }

  /** The callbacks `checkGameState` makes for a verdict. */
  function VerdictEvents(board: Board, v: Verdict, elapsed: int64): seq<Event> {
    match v
    case Won => [GameWon(board, elapsed)]
    case Lost => [GameLost(board)]
    case Ongoing => []
  }

  /**
   * `selectLayout`'s rule: a fixed id is looked up; a fixed mode without an
   * id, and the random mode, take any layout of the catalog; the
   * progressive mode takes the index `progressiveIndex % count`, Java's
   * remainder, which is negative (and so falls back to the first layout)
   * for a negative index.
   */
  predicate LayoutChoice(catalog: seq<Layout>, mode: LayoutMode, fixedId: Option<string>, progressiveIndex: int32, layout: Layout)
    requires IsCatalog(catalog)
  {
    match mode
    case Fixed => if fixedId.Some? then layout == GetLayoutById(catalog, fixedId.value) else layout in catalog
    case Random => layout in catalog
    case Progressive => layout == GetLayoutByIndex(catalog, JavaRem(progressiveIndex, |catalog|))
  }

  /**
   * The progressive mode walks the catalog in order and wraps around; once
   * the index has wrapped to negative values it stays on the first layout.
   */
  lemma ProgressiveCycles(catalog: seq<Layout>, progressiveIndex: int32, layout: Layout)
    requires IsCatalog(catalog) && LayoutChoice(catalog, Progressive, None, progressiveIndex, layout)
    ensures progressiveIndex >= 0 ==> layout == catalog[progressiveIndex as int % |catalog|]
    ensures progressiveIndex < 0 ==> layout == catalog[0]
    ensures 0 <= progressiveIndex < |catalog| ==> layout == catalog[progressiveIndex]
  {
    var r := JavaRem(progressiveIndex, |catalog|);
    if progressiveIndex < 0 && r == 0 {
      assert GetLayoutByIndex(catalog, r) == catalog[0];
    }
  }

  /** Each entry's not removed. */
  predicate NoneRemoved(ts: seq<Tile>)
    reads ts
  {
    forall t | t in ts :: !t.removed
  }

  /** No pair `(a, b)` with `a < b` that comes before `(i, j)` in row order matches. */
  predicate NoMatchBefore(ks: seq<TileType>, i: nat, j: nat) {
    forall a, b | 0 <= a < b < |ks| && (a < i || (a == i && b < j)) :: !CanMatch(ks[a], ks[b])
  }

  /**
   * `getHint`'s double loop: the first pair `i < j`, in row order, of tiles
   * that can be matched with each other, if there is one.
   */
  method FirstMatchingPair(free: seq<Tile>) returns (found: bool, i: nat, j: nat)
    requires NoneRemoved(free)
    ensures found ==> i < j < |free| && CanMatch(free[i].kind, free[j].kind)
                      && NoMatchBefore(Kinds(free), i, j)
    ensures found <==> HasMatchingPair(Kinds(free))
  {
    ghost var ks := Kinds(free);
    for a := 0 to |free|
      invariant forall x, y | 0 <= x < a && x < y < |free| :: !CanMatch(ks[x], ks[y])
    {
      for b := a + 1 to |free|
        invariant forall y | a < y < b :: !CanMatch(ks[a], ks[y])
      {
        var t1 := free[a];
        var t2 := free[b];
        assert t1 in free && t2 in free;
        if t1.CanMatchWith(t2) {
          return true, a, b;
        }
      }
    }
    return false, 0, 0;
  }

  /** The snapshot of one tile. */
  function TileStateOf(t: Tile): TileState
    reads t
  {
    TileState(t.id, Name(t.kind), t.position.x, t.position.y, t.position.z, t.removed)
  }

  /** A snapshot's tile gives back the tile's id, kind, cell and removed flag. */
  lemma TileStateRestores(t: Tile)
    ensures var s := TileStateOf(t);
            s.id == t.id && ValueOf(s.typeName) == Some(t.kind)
            && Position(s.x, s.y, s.z) == t.position && s.removed == t.removed
  {
    ValueOfName(t.kind);
  }

  /** The board `startNewGame` deals: unscreened for HARD, screened otherwise. */
  method DealFor(layout: Layout, difficulty: Difficulty) returns (board: Board, ghost screened: bool)
    ensures fresh(board) && DealtFrom(board, layout)
    ensures forall t :: multiset(Kinds(board.tiles))[t] % 2 == 0
    ensures |layout.positions| / 2 <= MAX_PAIRS_PER_TYPE * 42 ==>
              forall t :: multiset(Kinds(board.tiles))[t] <= 2 * MAX_PAIRS_PER_TYPE
    ensures screened ==> difficulty != Hard && PassesSimulation(board.tiles)
  {
    if difficulty == Hard {
      board := GenerateBoard(layout, difficulty);
      screened := false;
    } else {
      board, screened := GenerateSolvableBoard(layout, difficulty);
    }
  }

  class GameManager {
    /** The layouts `LayoutCatalog` holds. */
    const catalog: seq<Layout>
    var config: GameConfig
    var currentBoard: Board?
    var currentLayout: Option<Layout>
    var gameStartTime: int64
    var gamesWon: int32
    var gamesPlayed: int32
    /** Whether a listener is attached. */
    var hasListener: bool
    /** The callbacks made to the listener, oldest first. */
    var events: seq<Event>

    /** A board is only ever present together with its layout. */
    predicate Valid()
      reads this
    {
      IsCatalog(catalog) && (currentBoard != null ==> currentLayout.Some?)
    }

    /** The callbacks a listener hears: all of `es` when one is attached, none otherwise. */
    function Heard(es: seq<Event>): seq<Event>
      reads this
    {
      if hasListener then es else []
    }

    /** A new session: default settings, no game yet, nothing counted. */
    constructor (catalog: seq<Layout>)
      requires IsCatalog(catalog)
      ensures Valid() && this.catalog == catalog && fresh(config)
      ensures config.difficulty == Medium && config.layoutMode == Random
      ensures config.fixedLayoutId == None && config.progressiveIndex == 0
      ensures currentBoard == null && currentLayout == None
      ensures gamesWon == 0 && gamesPlayed == 0 && !hasListener && events == []
    {
      this.catalog := catalog;
      config := new GameConfig();
      currentBoard := null;
      currentLayout := None;
      gameStartTime := 0;
      gamesWon := 0;
      gamesPlayed := 0;
      hasListener := false;
      events := [];
    }

    method SetListener(attached: bool)
      modifies this
      ensures hasListener == attached
      ensures config == old(config) && currentBoard == old(currentBoard) && currentLayout == old(currentLayout)
      ensures gameStartTime == old(gameStartTime) && gamesWon == old(gamesWon) && gamesPlayed == old(gamesPlayed)
      ensures events == old(events)
    {
      hasListener := attached;
    }

    method SetConfig(config: GameConfig)
      modifies this
      ensures this.config == config
      ensures currentBoard == old(currentBoard) && currentLayout == old(currentLayout)
      ensures gameStartTime == old(gameStartTime) && gamesWon == old(gamesWon) && gamesPlayed == old(gamesPlayed)
      ensures hasListener == old(hasListener) && events == old(events)
    {
      this.config := config;
    }

    /** `selectLayout`: the layout the configured mode picks. */
    method SelectLayout() returns (layout: Layout)
      requires Valid()
      ensures LayoutChoice(catalog, config.layoutMode, config.fixedLayoutId, config.progressiveIndex, layout)
    {
      var count := GetLayoutCount(catalog);
      match config.layoutMode {
        case Fixed =>
          if config.fixedLayoutId.Some? {
            return GetLayoutById(catalog, config.fixedLayoutId.value);
          }
          var randomIndex :| 0 <= randomIndex < count;
          return GetLayoutByIndex(catalog, randomIndex);
        case Random =>
          var randomIndex :| 0 <= randomIndex < count;
          return GetLayoutByIndex(catalog, randomIndex);
        case Progressive =>
          var index := JavaRem(config.progressiveIndex, count);
          return GetLayoutByIndex(catalog, index);
      }
    }

    /**
     * `startNewGame`: pick a layout, deal a board for it (screened by the
     * solvability simulation unless the difficulty is HARD), start the
     * clock at `now`, count the game, and announce the layout, then the game.
     */
    method StartNewGame(now: int64) returns (ghost screened: bool)
      requires Valid()
      modifies this
      ensures Valid()
      ensures currentBoard != null && fresh(currentBoard) && currentLayout.Some?
      ensures LayoutChoice(catalog, config.layoutMode, config.fixedLayoutId, config.progressiveIndex, currentLayout.value)
      ensures DealtFrom(currentBoard, currentLayout.value)
      ensures forall t :: multiset(Kinds(currentBoard.tiles))[t] % 2 == 0
      ensures |currentLayout.value.positions| / 2 <= MAX_PAIRS_PER_TYPE * 42 ==>
                forall t :: multiset(Kinds(currentBoard.tiles))[t] <= 2 * MAX_PAIRS_PER_TYPE
      ensures screened ==> config.difficulty != Hard && PassesSimulation(currentBoard.tiles)
      ensures config == old(config) && hasListener == old(hasListener)
      ensures gameStartTime == now && gamesPlayed == Add(old(gamesPlayed), 1) && gamesWon == old(gamesWon)
      ensures events == old(events) + Heard([LayoutChanged(currentLayout.value), GameStarted(currentBoard)])
    {
      var layout := SelectLayout();
      var board;
      board, screened := DealFor(layout, config.difficulty);
      Begin(layout, board, now);
    }

    /** The bookkeeping of `startNewGame` once the board is dealt. */
    method Begin(layout: Layout, board: Board, now: int64)
      requires Valid()
      modifies this
      ensures Valid()
      ensures currentLayout == Some(layout) && currentBoard == board
      ensures config == old(config) && hasListener == old(hasListener)
      ensures gameStartTime == now && gamesPlayed == Add(old(gamesPlayed), 1) && gamesWon == old(gamesWon)
      ensures events == old(events) + Heard([LayoutChanged(layout), GameStarted(board)])
    {
      currentLayout := Some(layout);
      currentBoard := board;
      gameStartTime := now;
      gamesPlayed := Add(gamesPlayed, 1);
      if hasListener {
        events := events + [LayoutChanged(layout), GameStarted(board)];
      }
    }

    /**
     * `startNewGame(layoutId)`: fix the layout to that id (none stands for
     * Java's null), then start a game.  Without an id the fixed mode falls
     * back to a random layout.
     */
    method StartNewGameWith(layoutId: Option<string>, now: int64) returns (ghost screened: bool)
      requires Valid()
      modifies this, config
      ensures Valid()
      ensures config == old(config)
      ensures config.layoutMode == Fixed && config.fixedLayoutId == layoutId
      ensures config.difficulty == old(config.difficulty) && config.progressiveIndex == old(config.progressiveIndex)
      ensures currentBoard != null && fresh(currentBoard) && currentLayout.Some?
      ensures layoutId.Some? ==> currentLayout.value == GetLayoutById(catalog, layoutId.value)
      ensures layoutId.None? ==> currentLayout.value in catalog
      ensures DealtFrom(currentBoard, currentLayout.value)
      ensures forall t :: multiset(Kinds(currentBoard.tiles))[t] % 2 == 0
      ensures |currentLayout.value.positions| / 2 <= MAX_PAIRS_PER_TYPE * 42 ==>
                forall t :: multiset(Kinds(currentBoard.tiles))[t] <= 2 * MAX_PAIRS_PER_TYPE
      ensures screened ==> config.difficulty != Hard && PassesSimulation(currentBoard.tiles)
      ensures gameStartTime == now && gamesPlayed == Add(old(gamesPlayed), 1) && gamesWon == old(gamesWon)
      ensures events == old(events) + Heard([LayoutChanged(currentLayout.value), GameStarted(currentBoard)])
    {
      config.SetLayoutMode(Fixed);
      config.SetFixedLayoutId(layoutId);
      screened := StartNewGame(now);
    }

    /**
     * The state `checkGameState` leaves, from the win count, progressive
     * index and event log it started with: a win is counted, advances the
     * progressive index in that mode and is announced with the time played;
     * a stuck board is announced as lost; anything else changes nothing.
     */
    predicate Checked(wonBefore: int32, indexBefore: int32, eventsBefore: seq<Event>, now: int64)
      requires currentBoard != null
      reads this, config, currentBoard.tiles, currentBoard.positionMap.Values
    {
      var v := VerdictOf(currentBoard);
      gamesWon == (if v == Won then Add(wonBefore, 1) else wonBefore)
      && config.progressiveIndex == (if v == Won && config.layoutMode == Progressive then Add(indexBefore, 1) else indexBefore)
      && events == eventsBefore + Heard(VerdictEvents(currentBoard, v, Wrap64(now - gameStartTime)))
    }

    /**
     * `checkGameState`: on a win, count it, advance the progressive index
     * when that mode is on, and announce the win with the time played;
     * otherwise, when stuck, announce the loss.
     */
    method CheckGameState(now: int64)
      requires Valid() && currentBoard != null
      modifies this, config
      ensures Valid()
      ensures config == old(config) && currentBoard == old(currentBoard) && currentLayout == old(currentLayout)
      ensures gameStartTime == old(gameStartTime) && gamesPlayed == old(gamesPlayed) && hasListener == old(hasListener)
      ensures config.difficulty == old(config.difficulty) && config.layoutMode == old(config.layoutMode)
      ensures config.fixedLayoutId == old(config.fixedLayoutId)
      ensures Checked(old(gamesWon), old(config.progressiveIndex), old(events), now)
    {
      var won := currentBoard.IsGameWon();
      if won {
        gamesWon := Add(gamesWon, 1);
        var gameTime := Wrap64(now - gameStartTime);
        if config.layoutMode == Progressive {
          config.AdvanceProgressive();
        }
        if hasListener {
          events := events + [GameWon(currentBoard, gameTime)];
        }
      } else {
        var stuck := currentBoard.IsGameStuck();
        if stuck && hasListener {
          events := events + [GameLost(currentBoard)];
        }
      }
    }

    /** A tile the board would act on: there is a board and the tile is present and free. */
    predicate Selectable(tile: Tile?)
      reads this, tile, if currentBoard != null then currentBoard.positionMap.Values else {}
    {
      currentBoard != null && tile != null && currentBoard.IsFree(tile)
    }

    /** The board's current selection, as a frame. */
    function Selection(): set<Tile>
      reads this, currentBoard
    {
      if currentBoard != null && currentBoard.selectedTile != null then {currentBoard.selectedTile} else {}
    }

    /**
     * `onTileSelected`: ignored without a board and for a tile that is
     * removed or not free; a missing tile only triggers the state check.
     * Otherwise the tile is selected when nothing is, deselects the selection
     * when it has the same id, and else is paired with the selection: a pair
     * that can be removed is removed, the selection cleared and the state
     * checked; one that cannot makes the tile the selection.  The result is
     * true exactly when a pair was removed.
     */
    method OnTileSelected(tile: Tile?, now: int64) returns (removedPair: bool)
      requires Valid()
      modifies this, config, currentBoard, tile, Selection()
      ensures Valid()
      ensures currentBoard == old(currentBoard) && currentLayout == old(currentLayout) && config == old(config)
      ensures gameStartTime == old(gameStartTime) && gamesPlayed == old(gamesPlayed) && hasListener == old(hasListener)
      ensures old(currentBoard == null || (tile != null && !Selectable(tile))) ==>
                !removedPair && gamesWon == old(gamesWon) && events == old(events)
                && unchanged(config) && (tile != null ==> unchanged(tile)) && unchanged(old(Selection()))
                && (currentBoard != null ==> unchanged(currentBoard))
      ensures old(currentBoard != null && tile == null) ==>
                !removedPair && unchanged(currentBoard) && unchanged(old(Selection()))
                && config.difficulty == old(config.difficulty) && config.layoutMode == old(config.layoutMode)
                && config.fixedLayoutId == old(config.fixedLayoutId)
                && Checked(old(gamesWon), old(config.progressiveIndex), old(events), now)
      ensures old(Selectable(tile) && currentBoard.selectedTile == null) ==>
                !removedPair && currentBoard.selectedTile == tile && tile.selected
                && tile.removed == old(tile.removed) && tile.position == old(tile.position)
                && unchanged(config)
                && gamesWon == old(gamesWon) && events == old(events) + Heard([TileSelected(tile)])
      ensures old(Selectable(tile) && currentBoard.selectedTile != null && currentBoard.selectedTile.id == tile.id) ==>
                !removedPair && currentBoard.selectedTile == null && !old(currentBoard.selectedTile).selected
                && old(currentBoard.selectedTile).removed == old(currentBoard.selectedTile.removed)
                && old(currentBoard.selectedTile).position == old(currentBoard.selectedTile.position)
                && (tile != old(currentBoard.selectedTile) ==> unchanged(tile))
                && unchanged(config)
                && gamesWon == old(gamesWon) && events == old(events) + Heard([TileSelected(null)])
      ensures old(Selectable(tile) && currentBoard.selectedTile != null && currentBoard.selectedTile.id != tile.id) ==>
                removedPair == old(currentBoard.CanRemove(currentBoard.selectedTile, tile))
      // On a removal the board has already dropped the selection, so clearing
      // it again touches no flag: both removed tiles keep their `selected` flags.
      ensures removedPair ==>
                tile != null && old(currentBoard.selectedTile) != null
                && old(currentBoard.selectedTile).removed && tile.removed && currentBoard.selectedTile == null
                && old(currentBoard.selectedTile).selected == old(currentBoard.selectedTile.selected)
                && tile.selected == old(tile.selected)
                && old(currentBoard.selectedTile).position == old(currentBoard.selectedTile.position)
                && tile.position == old(tile.position)
                && config.difficulty == old(config.difficulty) && config.layoutMode == old(config.layoutMode)
                && config.fixedLayoutId == old(config.fixedLayoutId)
                && Checked(old(gamesWon), old(config.progressiveIndex),
                           old(events) + Heard([TilesRemoved(old(currentBoard.selectedTile), tile)]), now)
      ensures old(Selectable(tile) && currentBoard.selectedTile != null && currentBoard.selectedTile.id != tile.id)
              && !removedPair ==>
                currentBoard.selectedTile == tile && tile.selected && !old(currentBoard.selectedTile).selected
                && tile.removed == old(tile.removed) && tile.position == old(tile.position)
                && old(currentBoard.selectedTile).removed == old(currentBoard.selectedTile.removed)
                && old(currentBoard.selectedTile).position == old(currentBoard.selectedTile.position)
                && unchanged(config)
                && gamesWon == old(gamesWon) && events == old(events) + Heard([TileSelected(tile)])
    {
      if currentBoard == null {
        return false;
      }
      if tile == null {
        CheckGameState(now);
        return false;
      }
      if tile.removed {
        return false;
      }
      var free := currentBoard.IsTileFree(tile);
      if !free {
        return false;
      }
      var selected := currentBoard.selectedTile;
      if selected == null {
        currentBoard.SetSelectedTile(tile);
        if hasListener {
          events := events + [TileSelected(tile)];
        }
        return false;
      }
      if selected.id == tile.id {
        currentBoard.SetSelectedTile(null);
        if hasListener {
          events := events + [TileSelected(null)];
        }
        return false;
      }
      var removed := currentBoard.RemovePair(selected, tile);
      if removed {
        currentBoard.SetSelectedTile(null);
        if hasListener {
          events := events + [TilesRemoved(selected, tile)];
        }
        CheckGameState(now);
        return true;
      } else {
        currentBoard.SetSelectedTile(tile);
        if hasListener {
          events := events + [TileSelected(tile)];
        }
        return false;
      }
    }

    /**
     * `getHint`: no hint without a board; otherwise the first matching pair
     * of free tiles, in row order, which exists exactly when the board is
     * not stuck.
     */
    method GetHint() returns (hint: Option<(Tile, Tile)>)
      requires Valid()
      ensures currentBoard == null ==> hint == None
      ensures currentBoard != null ==> (hint == None <==> currentBoard.IsStuck())
      ensures hint.Some? ==>
                currentBoard != null
                && exists i, j | 0 <= i < j < |currentBoard.FreeTiles()| ::
                     hint.value == (currentBoard.FreeTiles()[i], currentBoard.FreeTiles()[j])
                     && CanMatch(currentBoard.FreeTiles()[i].kind, currentBoard.FreeTiles()[j].kind)
                     && NoMatchBefore(Kinds(currentBoard.FreeTiles()), i, j)
    {
      if currentBoard == null {
        return None;
      }
      var freeTiles := currentBoard.GetFreeTiles();
      currentBoard.FreeInMembers(currentBoard.tiles);
      var found, i, j := FirstMatchingPair(freeTiles);
      if found {
        return Some((freeTiles[i], freeTiles[j]));
      }
      return None;
    }

    /**
     * `saveGameState`: nothing without a board; otherwise the layout id, one
     * saved tile per tile in board order, the selected tile's id (-1 when
     * none), the time played up to `now` and the start time.
     */
    method SaveGameState(now: int64) returns (state: Option<GameState>)
      requires Valid()
      ensures state.None? <==> currentBoard == null
      ensures state.Some? ==>
                var s := state.value;
                s.layoutId == currentLayout.value.id
                && |s.tileStates| == |currentBoard.tiles|
                && (forall i | 0 <= i < |s.tileStates| :: s.tileStates[i] == TileStateOf(currentBoard.tiles[i]))
                && s.selectedTileId == (if currentBoard.selectedTile == null then -1 else currentBoard.selectedTile.id)
                && s.elapsedTimeMs == Wrap64(now - gameStartTime)
                && s.startTimeMs == gameStartTime
    {
      if currentBoard == null {
        return None;
      }
      var tiles := currentBoard.tiles;
      var tileStates: seq<TileState> := [];
      for i := 0 to |tiles|
        invariant |tileStates| == i
        invariant forall k | 0 <= k < i :: tileStates[k] == TileStateOf(tiles[k])
      {
        var tile := tiles[i];
        tileStates := tileStates + [TileState(tile.id, Name(tile.kind), tile.position.x, tile.position.y, tile.position.z, tile.removed)];
      }
      var selectedId := if currentBoard.selectedTile != null then currentBoard.selectedTile.id else -1;
      var elapsedTime := Wrap64(now - gameStartTime);
      return Some(GameState(currentLayout.value.id, tileStates, selectedId, elapsedTime, gameStartTime));
    }
  }
}
