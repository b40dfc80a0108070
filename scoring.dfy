/** Points for a word and the streak bonus (`calculatePoints` and the bonus in `submitWord`). */
module Scoring {
  /** The three levels the difficulty selector offers. */
  datatype Difficulty = Easy | Normal | Hard

  /** A streak of this many accepted words earns the bonus. */
  const StreakThreshold: nat := 3

  /**
   * `calculatePoints`: the word's length times 1, 1.5 or 2, rounded down.
   * The multiplier for Normal is 3/2, so its floor is pinned by `2p <= 3len < 2p + 2`.
   */
  function CalculatePoints(d: Difficulty, word: string): (p: nat)
    ensures |word| <= p <= 2 * |word|
    ensures d == Easy ==> p == |word|
    ensures d == Normal ==> 2 * p <= 3 * |word| < 2 * p + 2
    ensures d == Hard ==> p == 2 * |word|
  {
    match d
    case Easy => |word|
    case Normal => 3 * |word| / 2
    case Hard => 2 * |word|
  }

  /** `Math.floor(wordPoints * 0.5)`: half the word's points, rounded down. */
  function StreakBonus(wordPoints: nat): (b: nat)
    ensures 2 * b <= wordPoints < 2 * b + 2
  {
    wordPoints / 2
  }

  /** A harder level never pays less for the same word. */
  lemma CalculatePointsMonotone(word: string)
    ensures CalculatePoints(Easy, word) <= CalculatePoints(Normal, word) <= CalculatePoints(Hard, word)
  {
  }
}
