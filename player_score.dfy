/** The player's score counter (player_score.py). */
module Scoring {

  class PlayerScore {
    var score: int

    constructor ()
      ensures score == 0
    {
      score := 0;
    }

    /** Adds `points`, of either sign and without bound. */
    method AddScore(points: int)
      modifies this
      ensures score == old(score) + points
      ensures score == Apply(old(score), Add(points))
    {
      score := score + points;
    }

    method GetScore() returns (s: int)
      ensures s == score
    {
      s := score;
    }

    method Reset()
      modifies this
      ensures score == 0
      ensures score == Apply(old(score), ResetScore)
    {
      score := 0;
    }
  }

  /** The two operations that change a score. */
  datatype ScoreOp = Add(points: int) | ResetScore

  /** The effect of one operation on a score. */
  function Apply(score: int, op: ScoreOp): int
  {
    match op
    case Add(p) => score + p
    case ResetScore => 0
  }

  /** The score after performing `ops` in order, starting from `score`. */
  function Replay(score: int, ops: seq<ScoreOp>): int
    decreases |ops|
  {
    if ops == [] then score else Apply(Replay(score, ops[..|ops| - 1]), ops[|ops| - 1])
  }

  /** `ops` holds no reset and adds only non-negative points. */
  predicate GainsOnly(ops: seq<ScoreOp>)
  {
    forall i :: 0 <= i < |ops| ==> ops[i].Add? && ops[i].points >= 0
  }

  /** The points `ops` adds in all, when it holds no reset. */
  function Total(ops: seq<ScoreOp>): int
    decreases |ops|
  {
    if ops == [] then 0
    else Total(ops[..|ops| - 1]) + (match ops[|ops| - 1] case Add(p) => p case ResetScore => 0)
  }

  /** Without resets, the score is the start plus everything added. */
  lemma {:induction false} ReplayAddsTotal(score: int, ops: seq<ScoreOp>)
    requires forall i :: 0 <= i < |ops| ==> ops[i].Add?
    ensures Replay(score, ops) == score + Total(ops)
    decreases |ops|
  {
    if ops != [] {
      var init := ops[..|ops| - 1];
      assert forall i :: 0 <= i < |init| ==> init[i] == ops[i];
      ReplayAddsTotal(score, init);
    }
  }

  /** With non-negative points and no reset, the score never decreases. */
  lemma {:induction false} MonotoneBetweenResets(score: int, ops: seq<ScoreOp>, i: nat, j: nat)
    requires GainsOnly(ops)
    requires i <= j <= |ops|
    ensures Replay(score, ops[..i]) <= Replay(score, ops[..j])
    decreases j - i
  {
    if i < j {
      MonotoneBetweenResets(score, ops, i, j - 1);
      assert ops[..j][..j - 1] == ops[..j - 1];
      assert ops[..j][j - 1] == ops[j - 1];
    }
  }

  /** A reset sets the score to zero whatever it was before. */
  lemma {:induction false} ResetForgetsHistory(score: int, ops: seq<ScoreOp>)
    requires ops != [] && ops[|ops| - 1] == ResetScore
    ensures Replay(score, ops) == 0
  {
  }
}
