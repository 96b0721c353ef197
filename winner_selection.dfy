/**
 * What the winner scan over the checked behaviours must produce: one score row
 * per behaviour in order, and as winner the earliest behaviour reaching the
 * maximum score, provided that score is positive.
 */
module WinnerSelection {
  import opened Wrappers
  import opened Entities

  /** A row of the scores list: the behaviour (its name and weight) and its final score. */
  datatype ScoreRow = ScoreRow(behavior: Behavior, finalScore: real)

  /** `rows` holds exactly one row per behaviour of `bs`, in order, with its score. */
  ghost predicate RowsFor(bs: seq<Behavior>, score: Behavior -> real, rows: seq<ScoreRow>)
  {
    |rows| == |bs| && forall i :: 0 <= i < |bs| ==> rows[i] == ScoreRow(bs[i], score(bs[i]))
  }

  /** `bs[k]` wins: its score is positive, no behaviour scores more, and every
      earlier behaviour scores strictly less. */
  ghost predicate IsWinnerAt(bs: seq<Behavior>, score: Behavior -> real, k: int)
  {
    && 0 <= k < |bs|
    && score(bs[k]) > 0.0
    && (forall j :: 0 <= j < |bs| ==> score(bs[j]) <= score(bs[k]))
    && (forall j :: 0 <= j < k ==> score(bs[j]) < score(bs[k]))
  }

  /** `winner` is what the winner label shows: nothing when no behaviour scores
      above 0.0, otherwise the winning behaviour with its score. */
  ghost predicate IsWinner(bs: seq<Behavior>, score: Behavior -> real, winner: Option<ScoreRow>)
  {
    match winner
    case None => forall j :: 0 <= j < |bs| ==> score(bs[j]) <= 0.0
    case Some(row) => exists k :: IsWinnerAt(bs, score, k) && row == ScoreRow(bs[k], score(bs[k]))
  }

  /** At most one index wins. */
  lemma WinnerAtUnique(bs: seq<Behavior>, score: Behavior -> real, k1: int, k2: int)
    requires IsWinnerAt(bs, score, k1) && IsWinnerAt(bs, score, k2)
    ensures k1 == k2
  {
  }

  /** Of two behaviours with the same score, the later one never wins. */
  lemma TieKeepsEarlier(bs: seq<Behavior>, score: Behavior -> real, i: int, j: int)
    requires 0 <= i < j < |bs| && score(bs[i]) == score(bs[j])
    ensures !IsWinnerAt(bs, score, j)
  {
  }

  /** When some behaviour scores above 0.0 there is a winner. */
  lemma WinnerExists(bs: seq<Behavior>, score: Behavior -> real, i: int)
    requires 0 <= i < |bs| && score(bs[i]) > 0.0
    ensures exists k :: IsWinnerAt(bs, score, k)
  {
    var best := 0;
    for n := 1 to |bs|
      invariant 0 <= best < n
      invariant forall j :: 0 <= j < n ==> score(bs[j]) <= score(bs[best])
      invariant forall j :: 0 <= j < best ==> score(bs[j]) < score(bs[best])
    {
      if score(bs[n]) > score(bs[best]) {
        best := n;
      }
    }
    assert score(bs[i]) <= score(bs[best]);
    assert IsWinnerAt(bs, score, best);
  }

  /** The winner is determined: there is a winner exactly when some behaviour
      scores above 0.0, and it is unique. */
  lemma WinnerDetermined(bs: seq<Behavior>, score: Behavior -> real, w1: Option<ScoreRow>, w2: Option<ScoreRow>)
    requires IsWinner(bs, score, w1) && IsWinner(bs, score, w2)
    ensures w1 == w2
    ensures w1.Some? <==> exists j :: 0 <= j < |bs| && score(bs[j]) > 0.0
  {
  }
}
