/**
 * The catalog of layouts and its lookups.  The catalog is a non-empty list;
 * every lookup that finds nothing falls back to its first layout.  The
 * cells of the registered layouts are hand-drawn tables and are taken as
 * given.
 */
module LayoutCatalog {
  import opened JavaInt
  import opened Layouts

  /** A list the lookups can be run on: non-empty, and indexable by an `int`. */
  predicate IsCatalog(layouts: seq<Layout>) {
    0 < |layouts| <= MAX_INT
  }

  /** The ids `initializeLayouts` registers, in order, easiest first. */
  const REGISTERED_IDS: seq<string> :=
    [ "pyramid", "diamond", "cross", "small_square",
      "turtle", "spider", "flower", "fortress",
      "dragon", "temple", "well", "cat",
      "scorpion", "cobra", "ox", "ram" ]

  const REGISTERED_NAMES: seq<string> :=
    [ "Pyramid", "Diamond", "Cross", "Small Square",
      "Turtle", "Spider", "Flower", "Fortress",
      "Dragon", "Temple", "The Well", "Cat",
      "Scorpion", "Cobra", "Ox", "Ram" ]

  const REGISTERED_DESCRIPTIONS: seq<string> :=
    [ "Simple triangular layout", "Diamond-shaped layout", "Simple cross pattern", "Compact square layout",
      "Classic mahjong solitaire layout", "Spider-shaped layout", "Flower pattern layout", "Fortress wall layout",
      "Complex dragon pattern", "Temple gate layout", "Deep layered layout", "Cat-shaped layout",
      "Complex scorpion pattern", "Cobra snake layout", "Ox-shaped complex layout", "Ram horn layout" ]

  const REGISTERED_DIFFICULTIES: seq<int32> :=
    [ 2, 2, 2, 3,
      5, 5, 4, 5,
      7, 6, 8, 6,
      9, 9, 8, 8 ]

  /** The registered layouts, in registration order, given the cells of each. */
  function Registered(cells: seq<PositionList>): (layouts: seq<Layout>)
    requires |cells| == |REGISTERED_IDS|
    ensures |layouts| == |cells|
    ensures forall i | 0 <= i < |layouts| ::
              layouts[i].id == REGISTERED_IDS[i] && layouts[i].positions == cells[i]
  {
    seq(16, i requires 0 <= i < 16 =>
      Layout(REGISTERED_IDS[i], REGISTERED_NAMES[i], REGISTERED_DESCRIPTIONS[i], REGISTERED_DIFFICULTIES[i], cells[i]))
  }

  /** `getLayoutCount`: the number of layouts in the catalog. */
  function GetLayoutCount(layouts: seq<Layout>): (n: int32)
    requires IsCatalog(layouts)
    ensures n > 0 && n == |layouts|
  {
    |layouts|
  }

  /** `getLayoutByIndex`: the layout at `index`, or the first one when `index` is out of range. */
  function GetLayoutByIndex(layouts: seq<Layout>, index: int): (layout: Layout)
    requires IsCatalog(layouts)
    ensures layout in layouts
    ensures 0 <= index < |layouts| ==> layout == layouts[index]
    ensures !(0 <= index < |layouts|) ==> layout == layouts[0]
  {
    if index < 0 || index >= |layouts| then layouts[0] else layouts[index]
  }

  /**
   * `getIndexById`'s scan from `from` onward: the first index at or after
   * `from` holding a layout with that id, or 0 when there is none.
   */
  function IndexFrom(layouts: seq<Layout>, id: string, from: nat): (index: nat)
    requires from <= |layouts| && IsCatalog(layouts)
    ensures index < |layouts|
    ensures (exists k | from <= k < |layouts| :: layouts[k].id == id) ==>
              from <= index && layouts[index].id == id
              && forall k | from <= k < index :: layouts[k].id != id
    ensures (forall k | from <= k < |layouts| :: layouts[k].id != id) ==> index == 0
    decreases |layouts| - from
  {
    if from == |layouts| then 0
    else if layouts[from].id == id then from
    else IndexFrom(layouts, id, from + 1)
  }

  /** `getIndexById`: the smallest index whose layout has that id, or 0. */
  function GetIndexById(layouts: seq<Layout>, id: string): (index: int32)
    requires IsCatalog(layouts)
    ensures 0 <= index < |layouts|
    ensures (exists k | 0 <= k < |layouts| :: layouts[k].id == id) ==>
              layouts[index].id == id && forall k | 0 <= k < index :: layouts[k].id != id
    ensures (forall k | 0 <= k < |layouts| :: layouts[k].id != id) ==> index == 0
  {
    IndexFrom(layouts, id, 0)
  }

  /**
   * `getLayoutById`'s scan over the layouts from `from` onward: the first
   * one with that id, or the catalog's first layout when there is none.
   */
  function LayoutFrom(layouts: seq<Layout>, id: string, from: nat): (layout: Layout)
    requires from <= |layouts| && IsCatalog(layouts)
    ensures layout in layouts
    ensures (exists k | from <= k < |layouts| :: layouts[k].id == id) ==>
              layout.id == id
              && exists k | from <= k < |layouts| ::
                   layouts[k] == layout && forall m | from <= m < k :: layouts[m].id != id
    ensures (forall k | from <= k < |layouts| :: layouts[k].id != id) ==> layout == layouts[0]
    decreases |layouts| - from
  {
    if from == |layouts| then layouts[0]
    else if layouts[from].id == id then layouts[from]
    else LayoutFrom(layouts, id, from + 1)
  }

  /** `getLayoutById`: the first layout with that id, or the first layout of all. */
  function GetLayoutById(layouts: seq<Layout>, id: string): (layout: Layout)
    requires IsCatalog(layouts)
    ensures layout in layouts
    ensures (exists k | 0 <= k < |layouts| :: layouts[k].id == id) ==> layout.id == id
    ensures (forall k | 0 <= k < |layouts| :: layouts[k].id != id) ==> layout == layouts[0]
  {
    LayoutFrom(layouts, id, 0)
  }

  /** The two scans agree: the layout found is the one at the index found. */
  lemma {:induction false} ScansAgree(layouts: seq<Layout>, id: string, from: nat)
    requires from <= |layouts| && IsCatalog(layouts)
    ensures layouts[IndexFrom(layouts, id, from)] == LayoutFrom(layouts, id, from)
    decreases |layouts| - from
  {
    if from < |layouts| && layouts[from].id != id {
      ScansAgree(layouts, id, from + 1);
    }
  }

  /** Looking a layout up by its index is looking it up by id. */
  lemma ByIndexOfIndexById(layouts: seq<Layout>, id: string)
    requires IsCatalog(layouts)
    ensures GetLayoutByIndex(layouts, GetIndexById(layouts, id)) == GetLayoutById(layouts, id)
  {
    ScansAgree(layouts, id, 0);
  }

  /** In a catalog whose ids are pairwise different, each layout is found by its own id at its own place. */
  lemma DistinctIdsFoundInPlace(layouts: seq<Layout>)
    requires IsCatalog(layouts)
    requires forall i, j | 0 <= i < j < |layouts| :: layouts[i].id != layouts[j].id
    ensures forall i | 0 <= i < |layouts| ::
              GetIndexById(layouts, layouts[i].id) == i && GetLayoutById(layouts, layouts[i].id) == layouts[i]
  {
    forall i | 0 <= i < |layouts|
      ensures GetIndexById(layouts, layouts[i].id) == i
      ensures GetLayoutById(layouts, layouts[i].id) == layouts[i]
    {
      var id := layouts[i].id;
      var index := GetIndexById(layouts, id);
      assert layouts[i].id == id && layouts[index].id == id;
      ByIndexOfIndexById(layouts, id);
    }
  }

  /** The registered ids are pairwise different. */
  lemma RegisteredIdsDistinct()
    ensures forall i, j | 0 <= i < j < |REGISTERED_IDS| :: REGISTERED_IDS[i] != REGISTERED_IDS[j]
  {
  }

  /**
   * The registered catalog holds 16 layouts with pairwise different ids, so
   * each registered id is found at its own place.
   */
  lemma RegisteredLookups(cells: seq<PositionList>)
    requires |cells| == |REGISTERED_IDS|
    ensures IsCatalog(Registered(cells)) && GetLayoutCount(Registered(cells)) == 16
    ensures forall i | 0 <= i < 16 ::
              GetIndexById(Registered(cells), REGISTERED_IDS[i]) == i
              && GetLayoutById(Registered(cells), REGISTERED_IDS[i]) == Registered(cells)[i]
  {
    var layouts := Registered(cells);
    RegisteredIdsDistinct();
    DistinctIdsFoundInPlace(layouts);
  }
}
