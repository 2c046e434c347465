/** The classification of a national Pokedex number into one of the eight
    generation buckets.

    Seven inclusive ranges are tested in ascending order, each with its own
    generation; the eighth range [810, 905] and every number that matches no
    range (0 for a missing number, negatives, anything above 905) go to the
    last bucket.
 */
module Generations {

  /** A generation bucket number. */
  type Gen = g: int | 1 <= g <= 8 witness 1

  /** The eight inclusive dex ranges, one per generation, as a table. */
  const Ranges: seq<(int, int)> := [
    (1, 151), (152, 251), (252, 386), (387, 493),
    (494, 649), (650, 721), (722, 809), (810, 905)]

  /** Whether `dex` lies in the inclusive range of generation `g`. */
  predicate InRange(dex: int, g: Gen)
  {
    Ranges[g - 1].0 <= dex <= Ranges[g - 1].1
  }

  /** The generation bucket of a dex number: the first range that contains it,
      or generation 8 when none of the first seven does. */
  function Generation(dex: int): (g: Gen)
    ensures g < 8 ==> InRange(dex, g)
    ensures forall k: Gen :: k < g ==> !InRange(dex, k)
  {
    if 1 <= dex <= 151 then 1
    else if 152 <= dex <= 251 then 2
    else if 252 <= dex <= 386 then 3
    else if 387 <= dex <= 493 then 4
    else if 494 <= dex <= 649 then 5
    else if 650 <= dex <= 721 then 6
    else if 722 <= dex <= 809 then 7
    else if 810 <= dex <= 905 then 8
    else 8
  }

  /** The ranges are non-empty, ascending and pairwise disjoint; each one
      starts right after the previous one ends, so together they cover
      [1, 905] without gaps. */
  lemma RangesAscendingAndContiguous()
    ensures forall i :: 0 <= i < |Ranges| ==> Ranges[i].0 <= Ranges[i].1
    ensures forall i :: 0 <= i < |Ranges| - 1 ==> Ranges[i].1 + 1 == Ranges[i + 1].0
    ensures forall i, j :: 0 <= i < j < |Ranges| ==> Ranges[i].1 < Ranges[j].0
    ensures Ranges[0].0 == 1 && Ranges[|Ranges| - 1].1 == 905
  {
  }

  /** No dex number lies in two ranges. */
  lemma RangesDisjoint(dex: int, g: Gen, h: Gen)
    requires InRange(dex, g) && InRange(dex, h)
    ensures g == h
  {
    RangesAscendingAndContiguous();
  }

  /** For the first seven generations: a number is placed in generation `g`
      exactly when it lies in the g-th range. */
  lemma GenerationIff(dex: int, g: Gen)
    requires g < 8
    ensures Generation(dex) == g <==> InRange(dex, g)
  {
    if InRange(dex, g) && Generation(dex) != g {
      var h := Generation(dex);
      if h < g {
        RangesDisjoint(dex, g, h);
      }
    }
  }

  /** Generation 8 is the catch-all: a number is placed there exactly when
      none of the first seven ranges contains it, that is, when it is below 1
      or above 809. */
  lemma Generation8Iff(dex: int)
    ensures Generation(dex) == 8 <==> (forall k: Gen :: k < 8 ==> !InRange(dex, k))
    ensures Generation(dex) == 8 <==> (dex < 1 || 809 < dex)
  {
  }

  /** Zero (a missing or falsy number), any negative number and any number
      above the last range fall back to generation 8. */
  lemma OutOfRangeIsGen8(dex: int)
    requires dex < 1 || 905 < dex
    ensures Generation(dex) == 8
  {
  }

  /** Adjacent generations meet at the range boundaries: the last number of
      range g goes to g and the next number goes to g + 1. */
  lemma BoundariesSplit(g: Gen)
    requires g < 8
    ensures Generation(Ranges[g - 1].1) == g
    ensures Generation(Ranges[g - 1].1 + 1) == g + 1
  {
  }

  /** The boundary numbers written out. */
  lemma BoundaryExamples()
    ensures Generation(151) == 1 && Generation(152) == 2
    ensures Generation(251) == 2 && Generation(252) == 3
    ensures Generation(386) == 3 && Generation(387) == 4
    ensures Generation(493) == 4 && Generation(494) == 5
    ensures Generation(649) == 5 && Generation(650) == 6
    ensures Generation(721) == 6 && Generation(722) == 7
    ensures Generation(809) == 7 && Generation(810) == 8
    ensures Generation(905) == 8 && Generation(906) == 8
    ensures Generation(0) == 8 && Generation(9999) == 8
  {
  }
}
