/**
 * The match rule seen as a partition of the kinds: every kind belongs to
 * exactly one class (itself alone, all flowers, or all seasons), and two
 * kinds match exactly when they share a class.  Counting the members of a
 * class in a list of kinds is how the stuck check and the solvability
 * simulator decide whether a pair exists.
 */
module MatchGroups {
  import opened TileTypes

  /** A class of mutually matching kinds. */
  datatype Group = Exact(kind: TileType) | AnyFlower | AnySeason

  predicate InGroup(t: TileType, g: Group) {
    match g
    case Exact(k) => t == k
    case AnyFlower => IsFlower(t)
    case AnySeason => IsSeason(t)
  }

  /** The class of `t`: exactly the kinds `t` can be matched with. */
  function ClassOf(t: TileType): (g: Group)
    ensures InGroup(t, g)
    ensures forall u :: CanMatch(t, u) <==> InGroup(u, g)
  {
    if IsFlower(t) then AnyFlower
    else if IsSeason(t) then AnySeason
    else Exact(t)
  }

  /** How many entries of `ks` lie in class `g`. */
  function CountIn(ks: seq<TileType>, g: Group): (n: nat)
    ensures n <= |ks|
  {
    if |ks| == 0 then 0
    else CountIn(ks[..|ks| - 1], g) + (if InGroup(ks[|ks| - 1], g) then 1 else 0)
  }

  /** Two different positions of `ks` hold kinds that match. */
  predicate HasMatchingPair(ks: seq<TileType>) {
    exists i, j | 0 <= i < j < |ks| :: CanMatch(ks[i], ks[j])
  }

  /** Matching is an equivalence: two kinds match iff they have the same class. */
  lemma MatchIsSameClass(a: TileType, b: TileType)
    ensures CanMatch(a, b) <==> ClassOf(a) == ClassOf(b)
    ensures CanMatch(a, a)
    ensures CanMatch(a, b) ==> CanMatch(b, a)
  {
  }

  lemma MatchIsTransitive(a: TileType, b: TileType, c: TileType)
    requires CanMatch(a, b) && CanMatch(b, c)
    ensures CanMatch(a, c)
  {
    MatchIsSameClass(a, b);
    MatchIsSameClass(b, c);
    MatchIsSameClass(a, c);
  }

  lemma {:induction false} CountPositive(ks: seq<TileType>, g: Group)
    ensures CountIn(ks, g) > 0 <==> exists i | 0 <= i < |ks| :: InGroup(ks[i], g)
  {
    if |ks| > 0 {
      var front := ks[..|ks| - 1];
      CountPositive(front, g);
      if CountIn(front, g) > 0 {
        var i :| 0 <= i < |front| && InGroup(front[i], g);
        assert ks[i] == front[i];
      }
      if exists i | 0 <= i < |ks| :: InGroup(ks[i], g) {
        var i :| 0 <= i < |ks| && InGroup(ks[i], g);
        if i < |front| {
          assert front[i] == ks[i];
        }
      }
    }
  }

  /** A class has two members in `ks` iff two different positions hold members. */
  lemma CountTwo(ks: seq<TileType>, g: Group)
    ensures CountIn(ks, g) >= 2 <==>
            exists i, j | 0 <= i < j < |ks| :: InGroup(ks[i], g) && InGroup(ks[j], g)
  {
    if CountIn(ks, g) >= 2 {
      var i, j := TwoMembers(ks, g);
    }
    if exists i, j | 0 <= i < j < |ks| :: InGroup(ks[i], g) && InGroup(ks[j], g) {
      var i, j :| 0 <= i < j < |ks| && InGroup(ks[i], g) && InGroup(ks[j], g);
      CountFromTwo(ks, g, i, j);
    }
  }

  lemma {:induction false} TwoMembers(ks: seq<TileType>, g: Group) returns (i: nat, j: nat)
    requires CountIn(ks, g) >= 2
    ensures i < j < |ks| && InGroup(ks[i], g) && InGroup(ks[j], g)
  {
    var front := ks[..|ks| - 1];
    if CountIn(front, g) >= 2 {
      i, j := TwoMembers(front, g);
      assert ks[i] == front[i] && ks[j] == front[j];
    } else {
      CountPositive(front, g);
      i :| 0 <= i < |front| && InGroup(front[i], g);
      assert ks[i] == front[i];
      j := |ks| - 1;
    }
  }

  lemma {:induction false} CountFromTwo(ks: seq<TileType>, g: Group, i: nat, j: nat)
    requires i < j < |ks| && InGroup(ks[i], g) && InGroup(ks[j], g)
    ensures CountIn(ks, g) >= 2
  {
    var front := ks[..|ks| - 1];
    assert front[i] == ks[i];
    if j < |ks| - 1 {
      assert front[j] == ks[j];
      CountFromTwo(front, g, i, j);
    } else {
      CountPositive(front, g);
    }
  }

  /**
   * There is a matching pair iff some entry's class has two members; the
   * class of a flower is counted over all four flowers, that of a season over
   * all four seasons, that of any other kind over that kind alone.
   */
  lemma PairByClass(ks: seq<TileType>)
    ensures HasMatchingPair(ks) <==>
            exists i | 0 <= i < |ks| :: CountIn(ks, ClassOf(ks[i])) >= 2
  {
    if HasMatchingPair(ks) {
      var i, j :| 0 <= i < j < |ks| && CanMatch(ks[i], ks[j]);
      CountTwo(ks, ClassOf(ks[i]));
    }
    if exists i | 0 <= i < |ks| :: CountIn(ks, ClassOf(ks[i])) >= 2 {
      var i :| 0 <= i < |ks| && CountIn(ks, ClassOf(ks[i])) >= 2;
      var g := ClassOf(ks[i]);
      CountTwo(ks, g);
      var a, b :| 0 <= a < b < |ks| && InGroup(ks[a], g) && InGroup(ks[b], g);
      MatchIsTransitive(ks[a], ks[i], ks[b]);
    }
  }

  /**
   * The test the stuck check makes for a kind `t` present in `ks`: it has
   * two copies, or it is a flower while two flowers are present, or a season
   * while two seasons are present.
   */
  predicate PairTestFor(ks: seq<TileType>, t: TileType) {
    CountIn(ks, Exact(t)) >= 2
    || (IsFlower(t) && CountIn(ks, AnyFlower) >= 2)
    || (IsSeason(t) && CountIn(ks, AnySeason) >= 2)
  }

  /** The split the stuck check makes finds a pair iff one exists. */
  lemma PairByKindOrWildcard(ks: seq<TileType>)
    ensures HasMatchingPair(ks) <==> exists i | 0 <= i < |ks| :: PairTestFor(ks, ks[i])
  {
    PairByClass(ks);
    forall i | 0 <= i < |ks|
      ensures PairTestFor(ks, ks[i]) <==> CountIn(ks, ClassOf(ks[i])) >= 2
    {
      PairTestIsClassCount(ks, ks[i]);
    }
  }

  lemma PairTestIsClassCount(ks: seq<TileType>, t: TileType)
    ensures PairTestFor(ks, t) <==> CountIn(ks, ClassOf(t)) >= 2
  {
    if IsFlower(t) {
      assert ClassOf(t) == AnyFlower;
      CountOfSubclass(ks, Exact(t), AnyFlower);
    } else if IsSeason(t) {
      assert ClassOf(t) == AnySeason;
      CountOfSubclass(ks, Exact(t), AnySeason);
    } else {
      assert ClassOf(t) == Exact(t);
    }
  }

  /** A class contained in another has no more members in `ks`. */
  lemma {:induction false} CountOfSubclass(ks: seq<TileType>, g: Group, h: Group)
    requires forall u :: InGroup(u, g) ==> InGroup(u, h)
    ensures CountIn(ks, g) <= CountIn(ks, h)
  {
    if |ks| > 0 {
      CountOfSubclass(ks[..|ks| - 1], g, h);
    }
  }

  /**
   * The simulator's order of search: some kind with two copies, else two
   * flowers, else two seasons.  One of them is found iff a matching pair exists.
   */
  lemma PairByKindThenWildcard(ks: seq<TileType>)
    ensures HasMatchingPair(ks) <==>
            (exists k :: CountIn(ks, Exact(k)) >= 2)
            || CountIn(ks, AnyFlower) >= 2
            || CountIn(ks, AnySeason) >= 2
  {
    PairByKindOrWildcard(ks);
    if exists k :: CountIn(ks, Exact(k)) >= 2 {
      var k :| CountIn(ks, Exact(k)) >= 2;
      CountTwo(ks, Exact(k));
      var a, b :| 0 <= a < b < |ks| && InGroup(ks[a], Exact(k)) && InGroup(ks[b], Exact(k));
      assert CanMatch(ks[a], ks[b]);
    }
    if CountIn(ks, AnyFlower) >= 2 {
      CountTwo(ks, AnyFlower);
    }
    if CountIn(ks, AnySeason) >= 2 {
      CountTwo(ks, AnySeason);
    }
  }

  /** The flower class counts the four flower kinds together. */
  lemma {:induction false} FlowerCount(ks: seq<TileType>)
    ensures CountIn(ks, AnyFlower) ==
            CountIn(ks, Exact(FlowerPlum)) + CountIn(ks, Exact(FlowerOrchid))
            + CountIn(ks, Exact(FlowerChrysanthemum)) + CountIn(ks, Exact(FlowerBamboo))
  {
    if |ks| > 0 {
      FlowerCount(ks[..|ks| - 1]);
    }
  }

  /** The season class counts the four season kinds together. */
  lemma {:induction false} SeasonCount(ks: seq<TileType>)
    ensures CountIn(ks, AnySeason) ==
            CountIn(ks, Exact(SeasonSpring)) + CountIn(ks, Exact(SeasonSummer))
            + CountIn(ks, Exact(SeasonAutumn)) + CountIn(ks, Exact(SeasonWinter))
  {
    if |ks| > 0 {
      SeasonCount(ks[..|ks| - 1]);
    }
  }

  /** Counting a kind's own class is counting its occurrences. */
  lemma {:induction false} CountIsMultiplicity(ks: seq<TileType>, t: TileType)
    ensures CountIn(ks, Exact(t)) == multiset(ks)[t]
  {
    if |ks| > 0 {
      var front := ks[..|ks| - 1];
      CountIsMultiplicity(front, t);
      assert ks == front + [ks[|ks| - 1]];
    }
  }
}
