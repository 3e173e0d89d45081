/**
 * The closed set of tile kinds and the rule saying which two kinds may be
 * removed together.
 */
module TileTypes {
  import opened Wrappers

  /**
   * A variant of the enum, identified by its position in declaration order
   * (Java's `ordinal()`): 9 characters, 9 bamboos, 9 circles, 4 winds,
   * 3 dragons, 4 flowers and 4 seasons, 42 in all.
   */
  newtype TileType = k: int | 0 <= k < 42

  const Character1: TileType := 0
  const Character2: TileType := 1
  const Character3: TileType := 2
  const Character4: TileType := 3
  const Character5: TileType := 4
  const Character6: TileType := 5
  const Character7: TileType := 6
  const Character8: TileType := 7
  const Character9: TileType := 8
  const Bamboo1: TileType := 9
  const Bamboo2: TileType := 10
  const Bamboo3: TileType := 11
  const Bamboo4: TileType := 12
  const Bamboo5: TileType := 13
  const Bamboo6: TileType := 14
  const Bamboo7: TileType := 15
  const Bamboo8: TileType := 16
  const Bamboo9: TileType := 17
  const Circle1: TileType := 18
  const Circle2: TileType := 19
  const Circle3: TileType := 20
  const Circle4: TileType := 21
  const Circle5: TileType := 22
  const Circle6: TileType := 23
  const Circle7: TileType := 24
  const Circle8: TileType := 25
  const Circle9: TileType := 26
  const WindNorth: TileType := 27
  const WindEast: TileType := 28
  const WindSouth: TileType := 29
  const WindWest: TileType := 30
  const DragonRed: TileType := 31
  const DragonGreen: TileType := 32
  const DragonWhite: TileType := 33
  const FlowerPlum: TileType := 34
  const FlowerOrchid: TileType := 35
  const FlowerChrysanthemum: TileType := 36
  const FlowerBamboo: TileType := 37
  const SeasonSpring: TileType := 38
  const SeasonSummer: TileType := 39
  const SeasonAutumn: TileType := 40
  const SeasonWinter: TileType := 41

  datatype Suit =
    | CharacterSuit | BambooSuit | CircleSuit | WindSuit | DragonSuit
    | FlowerSuit | SeasonSuit | UnknownSuit

  /** All variants in declaration order, as `TileType.values()` lists them. */
  function Values(): (vs: seq<TileType>)
    ensures |vs| == 42
    ensures forall k | 0 <= k < 42 :: vs[k] == k as TileType
  {
    seq(42, k requires 0 <= k < 42 => k as TileType)
  }

  /** The enum constant's name (Java's `name()`). */
  function Name(t: TileType): string {
    if t < 9 then CharacterNames()[t]
    else if t < 18 then BambooNames()[t - 9]
    else if t < 27 then CircleNames()[t - 18]
    else if t < 31 then [ "WIND_NORTH", "WIND_EAST", "WIND_SOUTH", "WIND_WEST" ][t - 27]
    else if t < 34 then [ "DRAGON_RED", "DRAGON_GREEN", "DRAGON_WHITE" ][t - 31]
    else if t < 38 then [ "FLOWER_PLUM", "FLOWER_ORCHID", "FLOWER_CHRYSANTHEMUM", "FLOWER_BAMBOO" ][t - 34]
    else [ "SEASON_SPRING", "SEASON_SUMMER", "SEASON_AUTUMN", "SEASON_WINTER" ][t - 38]
  }

  function CharacterNames(): seq<string> {
    [ "CHARACTER_1", "CHARACTER_2", "CHARACTER_3", "CHARACTER_4", "CHARACTER_5", "CHARACTER_6", "CHARACTER_7", "CHARACTER_8", "CHARACTER_9" ]
  }

  function BambooNames(): seq<string> {
    [ "BAMBOO_1", "BAMBOO_2", "BAMBOO_3", "BAMBOO_4", "BAMBOO_5", "BAMBOO_6", "BAMBOO_7", "BAMBOO_8", "BAMBOO_9" ]
  }

  function CircleNames(): seq<string> {
    [ "CIRCLE_1", "CIRCLE_2", "CIRCLE_3", "CIRCLE_4", "CIRCLE_5", "CIRCLE_6", "CIRCLE_7", "CIRCLE_8", "CIRCLE_9" ]
  }

  predicate StartsWith(s: string, prefix: string) {
    |prefix| <= |s| && s[..|prefix|] == prefix
  }

  /** The suit for display (`getSuit`): the first name prefix that applies. */
  function GetSuit(t: TileType): Suit {
    SuitOfName(Name(t))
  }

  function SuitOfName(name: string): Suit {
    if StartsWith(name, "CHARACTER") then CharacterSuit
    else if StartsWith(name, "BAMBOO") then BambooSuit
    else if StartsWith(name, "CIRCLE") then CircleSuit
    else if StartsWith(name, "WIND") then WindSuit
    else if StartsWith(name, "DRAGON") then DragonSuit
    else if StartsWith(name, "FLOWER") then FlowerSuit
    else if StartsWith(name, "SEASON") then SeasonSuit
    else UnknownSuit
  }

  predicate IsFlower(t: TileType) {
    t == FlowerPlum || t == FlowerOrchid || t == FlowerChrysanthemum || t == FlowerBamboo
  }

  predicate IsSeason(t: TileType) {
    t == SeasonSpring || t == SeasonSummer || t == SeasonAutumn || t == SeasonWinter
  }

  /** Two kinds can be removed together: the same kind, two flowers or two seasons. */
  predicate CanMatch(a: TileType, b: TileType) {
    a == b || (IsFlower(a) && IsFlower(b)) || (IsSeason(a) && IsSeason(b))
  }

  /** The suit each declaration-order band of variants belongs to. */
  function SuitOfOrdinal(k: int): Suit {
    if k < 0 then UnknownSuit
    else if k < 9 then CharacterSuit
    else if k < 18 then BambooSuit
    else if k < 27 then CircleSuit
    else if k < 31 then WindSuit
    else if k < 34 then DragonSuit
    else if k < 38 then FlowerSuit
    else if k < 42 then SeasonSuit
    else UnknownSuit
  }

  // One lemma per name prefix: a name with that prefix gets that suit,
  // because no earlier test in GetSuit's chain accepts it.

  lemma CharacterName(s: string)
    requires StartsWith(s, "CHARACTER")
    ensures SuitOfName(s) == CharacterSuit
  {
  }

  lemma BambooName(s: string)
    requires StartsWith(s, "BAMBOO")
    ensures SuitOfName(s) == BambooSuit
  {
    assert s[0] == 'B';
  }

  lemma CircleName(s: string)
    requires StartsWith(s, "CIRCLE")
    ensures SuitOfName(s) == CircleSuit
  {
    assert s[0] == 'C' && s[1] == 'I';
  }

  lemma WindName(s: string)
    requires StartsWith(s, "WIND")
    ensures SuitOfName(s) == WindSuit
  {
    assert s[0] == 'W';
  }

  lemma DragonName(s: string)
    requires StartsWith(s, "DRAGON")
    ensures SuitOfName(s) == DragonSuit
  {
    assert s[0] == 'D';
  }

  lemma FlowerName(s: string)
    requires StartsWith(s, "FLOWER")
    ensures SuitOfName(s) == FlowerSuit
  {
    assert s[0] == 'F';
  }

  lemma SeasonName(s: string)
    requires StartsWith(s, "SEASON")
    ensures SuitOfName(s) == SeasonSuit
  {
    assert s[0] == 'S';
  }

  /**
   * The prefix chain gives every variant the suit of its band, so it never
   * yields UNKNOWN, and the flower and season suits are exactly the flowers
   * and the seasons.
   */
  lemma SuitByDeclarationOrder(t: TileType)
    ensures GetSuit(t) == SuitOfOrdinal(t as int)
    ensures GetSuit(t) != UnknownSuit
    ensures IsFlower(t) <==> GetSuit(t) == FlowerSuit
    ensures IsSeason(t) <==> GetSuit(t) == SeasonSuit
  {
    if t < 9 {
      CharacterName(Name(t));
    } else if t < 18 {
      BambooName(Name(t));
    } else if t < 27 {
      CircleName(Name(t));
    } else if t < 31 {
      WindName(Name(t));
    } else if t < 34 {
      DragonName(Name(t));
    } else if t < 38 {
      FlowerName(Name(t));
    } else {
      SeasonName(Name(t));
    }
  }

  /** The decimal digit for `i`, as Java writes an `int` below 10 in a string. */
  function DigitChar(i: int): char
    requires 0 <= i <= 9
  {
    ('0' as int + i) as char
  }

  /**
   * The numbered bands in Java's `valueOf` terms: variant `i - 1` of each
   * suited band is the one named with the number `i`.
   */
  lemma NumberedNames(i: int)
    requires 1 <= i <= 9
    ensures Name((i - 1) as TileType) == "CHARACTER_" + [DigitChar(i)]
    ensures Name((i + 8) as TileType) == "BAMBOO_" + [DigitChar(i)]
    ensures Name((i + 17) as TileType) == "CIRCLE_" + [DigitChar(i)]
  {
  }

  /** `valueOf`: the variant with that name, or none (Java throws) for any other string. */
  function ValueOf(name: string): (r: Option<TileType>)
    ensures r.Some? ==> Name(r.value) == name
    ensures r.None? ==> forall t: TileType :: Name(t) != name
  {
    ValueFrom(name, 0)
  }

  /** The search `valueOf` makes over the variants from `k` onward. */
  function ValueFrom(name: string, k: int): (r: Option<TileType>)
    requires 0 <= k <= 42
    ensures r.Some? ==> Name(r.value) == name
    ensures r.None? ==> forall t: TileType | k <= t as int :: Name(t) != name
    decreases 42 - k
  {
    if k == 42 then None
    else if Name(k as TileType) == name then Some(k as TileType)
    else ValueFrom(name, k + 1)
  }

  /**
   * Reads the variant back off a name from a few of its characters: the
   * first letter picks the band, then the number or the letter after the
   * underscore picks the member.  Used only to show that names differ.
   */
  function Decode(s: string): int {
    if |s| < 9 && !(|s| == 8 && (s[0] == 'B' || s[0] == 'C')) then -1
    else if s[0] == 'C' && s[1] == 'H' && |s| == 11 then s[10] as int - '1' as int
    else if s[0] == 'B' && |s| == 8 then 9 + (s[7] as int - '1' as int)
    else if s[0] == 'C' && |s| == 8 then 18 + (s[7] as int - '1' as int)
    else if |s| < 9 then -1
    else if s[0] == 'W' then (if s[5] == 'N' then 27 else if s[5] == 'E' then 28 else if s[5] == 'S' then 29 else 30)
    else if s[0] == 'D' then (if s[7] == 'R' then 31 else if s[7] == 'G' then 32 else 33)
    else if s[0] == 'F' then (if s[7] == 'P' then 34 else if s[7] == 'O' then 35 else if s[7] == 'C' then 36 else 37)
    else if s[7] == 'S' then (if s[8] == 'P' then 38 else 39)
    else if s[7] == 'A' then 40
    else 41
  }

  lemma NameDecodes(t: TileType)
    ensures Decode(Name(t)) == t as int
  {
    if t < 27 {
      NumberedDecodes(t);
    } else if t < 34 {
      HonourDecodes(t);
    } else {
      BonusDecodes(t);
    }
  }

  lemma NumberedDecodes(t: TileType)
    requires t < 27
    ensures Decode(Name(t)) == t as int
  {
    if t < 9 {
      NumberedNames(t as int + 1);
    } else if t < 18 {
      NumberedNames(t as int - 8);
    } else {
      NumberedNames(t as int - 17);
    }
  }

  lemma HonourDecodes(t: TileType)
    requires 27 <= t < 34
    ensures Decode(Name(t)) == t as int
  {
  }

  lemma BonusDecodes(t: TileType)
    requires 34 <= t
    ensures Decode(Name(t)) == t as int
  {
  }

  /** Different variants have different names. */
  lemma NameInjective(a: TileType, b: TileType)
    requires Name(a) == Name(b)
    ensures a == b
  {
    NameDecodes(a);
    NameDecodes(b);
  }

  /** `valueOf(name())` gives the variant back. */
  lemma ValueOfName(t: TileType)
    ensures ValueOf(Name(t)) == Some(t)
  {
    var r := ValueOf(Name(t));
    NameInjective(r.value, t);
  }
}
