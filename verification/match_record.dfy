/** The stored match record and the rule that derives its winner and point difference. */
module MatchRecord {

  /** Winner label stored for a drawn match ("draw" in Japanese). */
  const DrawLabel: string := "引き分け"

  /**
    One row of the `match` table, without its database id. Integer columns are mathematical
    integers here; the 64-bit bound of the stored columns is checked when a submission is committed.
  */
  datatype Match = Match(
    date: string,
    shop: string,
    games: int,
    player1: string,
    player2: string,
    score1: int,
    score2: int,
    ace1: int,
    ace2: int,
    cue1: string,
    cue2: string,
    gameType: string,
    winner: string,
    pointDiff: int,
    comment: string)

  /** What a submission derives from the two scores. */
  datatype Verdict = Verdict(winner: string, pointDiff: int)

  /** Strictly higher score wins; equal scores store the draw label; the difference is absolute. */
  function Resolve(player1: string, player2: string, score1: int, score2: int): (v: Verdict)
    ensures score1 > score2 ==> v.winner == player1
    ensures score2 > score1 ==> v.winner == player2
    ensures score1 == score2 ==> v.winner == DrawLabel
    ensures v.pointDiff >= 0
    ensures score1 == score2 + v.pointDiff || score2 == score1 + v.pointDiff
    ensures v.pointDiff == 0 <==> score1 == score2
  {
    var winner := if score1 > score2 then player1 else if score2 > score1 then player2 else DrawLabel;
    Verdict(winner, if score1 >= score2 then score1 - score2 else score2 - score1)
  }

  /** A record whose derived columns agree with its scores. */
  predicate Resolved(m: Match)
  {
    Resolve(m.player1, m.player2, m.score1, m.score2) == Verdict(m.winner, m.pointDiff)
  }

  /** Which slot a player sits in carries no weight: swapping the sides changes nothing derived. */
  lemma ResolveSymmetric(player1: string, player2: string, score1: int, score2: int)
    ensures Resolve(player2, player1, score2, score1) == Resolve(player1, player2, score1, score2)
  {
  }

  /** The concrete draw: equal scores give the draw label and a zero difference. */
  lemma DrawExample()
    ensures Resolve("A", "B", 3, 3) == Verdict(DrawLabel, 0)
  {
  }
}
