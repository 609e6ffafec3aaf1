/** The write model (`PlayerScore`) and the keyless read projections
    (`RankedPlayer`, `RankAndScore`) of the leaderboard. */
module Domain {

  /** The range of C#'s `long`. */
  const LongMin: int := -0x8000_0000_0000_0000
  const LongMax: int := 0x7FFF_FFFF_FFFF_FFFF

  predicate IsInt64(x: int) {
    LongMin <= x <= LongMax
  }

  /** The declared maximum length of a player id. */
  const PlayerIdMaxLength: nat := 128

  /** A point in time (`DateTime`), as a tick count; the clock itself is a
      parameter of every operation that writes. */
  type Instant = int

  /** One row of the PlayerScores table. The id is also the key the row is
      stored under. */
  datatype PlayerScore = PlayerScore(playerId: string, score: int, updatedAt: Instant)

  /** The constraints the record declares: an id of 1 to 128 characters and a
      score in `[0, long.MaxValue]`. */
  predicate MeetsDeclaredConstraints(record: PlayerScore) {
    1 <= |record.playerId| <= PlayerIdMaxLength && 0 <= record.score <= LongMax
  }

  /** A row of the ranking view: a player, their score and their dense rank. */
  datatype RankedPlayer = RankedPlayer(playerId: string, score: int, rank: int)

  /** The single-player lookup's result; `(-1, -1)` when the player is absent. */
  datatype RankAndScore = RankAndScore(rank: int, score: int)
}
