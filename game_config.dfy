/** The settings of a game session. */
module Config {
  import opened JavaInt
  import opened Wrappers

  /** How hard boards are; only HARD skips the solvability filter. */
  datatype Difficulty = Easy | Medium | Hard

  /** How the next layout is chosen. */
  datatype LayoutMode = Fixed | Random | Progressive

  class GameConfig {
    var difficulty: Difficulty
    var layoutMode: LayoutMode
    var fixedLayoutId: Option<string>
    var progressiveIndex: int32

    /** Defaults: medium difficulty, random layouts, no fixed layout, first progressive layout. */
    constructor ()
      ensures difficulty == Medium && layoutMode == Random
      ensures fixedLayoutId == None && progressiveIndex == 0
    {
      difficulty := Medium;
      layoutMode := Random;
      fixedLayoutId := None;
      progressiveIndex := 0;
    }

    method SetDifficulty(difficulty: Difficulty)
      modifies this
      ensures this.difficulty == difficulty
      ensures layoutMode == old(layoutMode) && fixedLayoutId == old(fixedLayoutId)
      ensures progressiveIndex == old(progressiveIndex)
    {
      this.difficulty := difficulty;
    }

    method SetLayoutMode(layoutMode: LayoutMode)
      modifies this
      ensures this.layoutMode == layoutMode
      ensures difficulty == old(difficulty) && fixedLayoutId == old(fixedLayoutId)
      ensures progressiveIndex == old(progressiveIndex)
    {
      this.layoutMode := layoutMode;
    }

    method SetFixedLayoutId(fixedLayoutId: Option<string>)
      modifies this
      ensures this.fixedLayoutId == fixedLayoutId
      ensures difficulty == old(difficulty) && layoutMode == old(layoutMode)
      ensures progressiveIndex == old(progressiveIndex)
    {
      this.fixedLayoutId := fixedLayoutId;
    }

    method SetProgressiveIndex(progressiveIndex: int32)
      modifies this
      ensures this.progressiveIndex == progressiveIndex
      ensures difficulty == old(difficulty) && layoutMode == old(layoutMode)
      ensures fixedLayoutId == old(fixedLayoutId)
    {
      this.progressiveIndex := progressiveIndex;
    }

    /**
     * Move to the next progressive layout: one more, except that the
     * largest int wraps to the smallest, as `++` on a Java int does.
     */
    method AdvanceProgressive()
      modifies this
      ensures old(progressiveIndex) < MAX_INT ==> progressiveIndex == old(progressiveIndex) + 1
      ensures old(progressiveIndex) == MAX_INT ==> progressiveIndex == MIN_INT
      ensures progressiveIndex == Add(old(progressiveIndex), 1)
      ensures difficulty == old(difficulty) && layoutMode == old(layoutMode)
      ensures fixedLayoutId == old(fixedLayoutId)
    {
      progressiveIndex := Add(progressiveIndex, 1);
    }
  }
}
