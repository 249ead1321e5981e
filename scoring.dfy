/**
 * The HER2 confusion matrix and the score of one guess against the ground
 * truth of a tissue core. HER2 levels are 0, 1, 2 and 3.
 */
module Scoring {

  /** Rows are the guessed level, columns the ground-truth level. */
  const Her2ConfusionMatrix: seq<seq<int>> := [
    [ 5, -2, -3, -5],
    [-1,  5, -2, -3],
    [-2, -1,  5, -1],
    [-4, -2, -1,  5]
  ]

  /** The penalty for a guess or a ground truth outside 0..3. */
  const OutOfRangeScore := -5

  predicate IsLevel(x: int) {
    0 <= x <= 3
  }

  /** The score of `guess` against `groundTruth`: the matrix entry, or the highest penalty when either is out of range. */
  function GetScore(guess: int, groundTruth: int): (r: int)
    ensures -5 <= r <= 5
    ensures !(IsLevel(guess) && IsLevel(groundTruth)) ==> r == OutOfRangeScore
    ensures r == 5 ==> guess == groundTruth
  {
    if guess < 0 || guess > 3 || groundTruth < 0 || groundTruth > 3 then
      OutOfRangeScore
    else
      Her2ConfusionMatrix[guess][groundTruth]
  }

  /** In range, the score is the matrix entry. */
  lemma ScoreIsMatrixEntry(guess: int, groundTruth: int)
    requires IsLevel(guess) && IsLevel(groundTruth)
    ensures |Her2ConfusionMatrix| == 4 && |Her2ConfusionMatrix[guess]| == 4
    ensures GetScore(guess, groundTruth) == Her2ConfusionMatrix[guess][groundTruth]
  {
  }

  /** In range, full marks exactly for the right level. */
  lemma CorrectIffExact(guess: int, groundTruth: int)
    requires IsLevel(guess) && IsLevel(groundTruth)
    ensures GetScore(guess, groundTruth) == 5 <==> guess == groundTruth
  {
  }

  /** Every wrong in-range guess is penalised by 1 to 5 points. */
  lemma WrongGuessIsPenalised(guess: int, groundTruth: int)
    requires IsLevel(guess) && IsLevel(groundTruth) && guess != groundTruth
    ensures -5 <= GetScore(guess, groundTruth) <= -1
  {
  }

  /** The value set of the matrix: 5, -1, -2 or at most -3. */
  lemma ScoreValues(guess: int, groundTruth: int)
    ensures var s := GetScore(guess, groundTruth);
      s == 5 || s == -1 || s == -2 || -5 <= s <= -3
  {
  }

  /** The matrix is not symmetric: guessing 0 for a 1 costs more than guessing 1 for a 0. */
  lemma NotSymmetric()
    ensures GetScore(0, 1) == -2 && GetScore(1, 0) == -1
  {
  }
}
