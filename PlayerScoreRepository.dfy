/** The write side of the score store: one `PlayerScore` per player id, an
    upsert that replaces or accumulates, a lookup, and a reset that deletes
    every row. The table is a map from id to record that the methods reassign. */
module Repository {
  import opened Wrappers
  import opened Domain

  type Rows = map<string, PlayerScore>

  /** The table's shape: PlayerId is the key, so every record sits under its own
      id (at most one record per id), and every score is a `long`. */
  predicate KeyedByPlayerId(rows: Rows) {
    forall id :: id in rows ==> rows[id].playerId == id && IsInt64(rows[id].score)
  }

  /** C#'s unchecked `long + long`: the mathematical sum reduced into the
      64-bit range, so a sum above `long.MaxValue` wraps to a negative value. */
  function AddInt64(a: int, b: int): (sum: int)
    requires IsInt64(a) && IsInt64(b)
    ensures IsInt64(sum)
    ensures IsInt64(a + b) ==> sum == a + b
    ensures (sum - (a + b)) % 0x1_0000_0000_0000_0000 == 0
  {
    var t := a + b;
    if t > LongMax then t - 0x1_0000_0000_0000_0000
    else if t < LongMin then t + 0x1_0000_0000_0000_0000
    else t
  }

  /** The table after `UpsertAsync(playerId, score, accumulate)` at time `now`. */
  function Upserted(rows: Rows, playerId: string, score: int, accumulate: bool, now: Instant): (after: Rows)
    requires KeyedByPlayerId(rows) && IsInt64(score)
    ensures KeyedByPlayerId(after)
    ensures after.Keys == rows.Keys + {playerId}
    ensures after[playerId].playerId == playerId && after[playerId].updatedAt == now
    ensures playerId !in rows || !accumulate ==> after[playerId].score == score
    ensures playerId in rows && accumulate ==> after[playerId].score == AddInt64(rows[playerId].score, score)
    ensures forall id :: id in rows && id != playerId ==> after[id] == rows[id]
  {
    if playerId !in rows then
      rows[playerId := PlayerScore(playerId, score, now)]
    else
      var entity := rows[playerId];
      var newScore := if accumulate then AddInt64(entity.score, score) else score;
      rows[playerId := entity.(score := newScore, updatedAt := now)]
  }

  /** The first upsert of an id stores exactly the submitted score, in either mode. */
  lemma InsertStoresSubmittedScore(rows: Rows, playerId: string, score: int, accumulate: bool, now: Instant)
    requires KeyedByPlayerId(rows) && IsInt64(score) && playerId !in rows
    ensures Upserted(rows, playerId, score, accumulate, now)[playerId] == PlayerScore(playerId, score, now)
  {
  }

  /** Replace mode: the stored score is the submitted one, whatever was there. */
  lemma ReplaceIgnoresPreviousScore(rows: Rows, playerId: string, score: int, now: Instant)
    requires KeyedByPlayerId(rows) && IsInt64(score)
    ensures Upserted(rows, playerId, score, false, now)[playerId] == PlayerScore(playerId, score, now)
  {
  }

  /** Accumulate mode on an existing row adds to the stored score (while the
      sum fits in a `long`). */
  lemma AccumulateAddsToStoredScore(rows: Rows, playerId: string, score: int, now: Instant)
    requires KeyedByPlayerId(rows) && IsInt64(score) && playerId in rows
    requires rows[playerId].score + score <= LongMax && 0 <= score
    ensures Upserted(rows, playerId, score, true, now)[playerId].score == rows[playerId].score + score
  {
  }

  /** Accumulating 0 keeps the score and only refreshes the timestamp. */
  lemma AccumulateZeroKeepsScore(rows: Rows, playerId: string, now: Instant)
    requires KeyedByPlayerId(rows) && playerId in rows
    ensures Upserted(rows, playerId, 0, true, now) == rows[playerId := rows[playerId].(updatedAt := now)]
  {
  }

  /** Submitting `s1` then `s2` for a new player in accumulate mode stores `s1 + s2`. */
  lemma AccumulateTwiceSums(rows: Rows, playerId: string, s1: int, s2: int, t1: Instant, t2: Instant)
    requires KeyedByPlayerId(rows) && playerId !in rows
    requires 0 <= s1 && 0 <= s2 && s1 + s2 <= LongMax
    ensures Upserted(Upserted(rows, playerId, s1, true, t1), playerId, s2, true, t2)[playerId]
         == PlayerScore(playerId, s1 + s2, t2)
  {
  }

  /** Accumulating past `long.MaxValue` wraps: the stored score turns negative. */
  lemma AccumulateCanWrapNegative(rows: Rows, playerId: string, now: Instant)
    requires KeyedByPlayerId(rows) && playerId in rows && rows[playerId].score == LongMax
    ensures Upserted(rows, playerId, 1, true, now)[playerId].score == LongMin
  {
  }

  /** Every record meets its declared constraints (id of 1..128 characters,
      score in `[0, long.MaxValue]`). */
  predicate AllMeetDeclaredConstraints(rows: Rows) {
    forall id :: id in rows ==> MeetsDeclaredConstraints(rows[id])
  }

  /** Upserts of a valid id and a non-negative score keep every record within
      its declared constraints, provided an accumulated sum does not overflow. */
  lemma UpsertKeepsDeclaredConstraints(rows: Rows, playerId: string, score: int, accumulate: bool, now: Instant)
    requires KeyedByPlayerId(rows) && AllMeetDeclaredConstraints(rows)
    requires 1 <= |playerId| <= PlayerIdMaxLength && 0 <= score <= LongMax
    requires accumulate && playerId in rows ==> rows[playerId].score + score <= LongMax
    ensures AllMeetDeclaredConstraints(Upserted(rows, playerId, score, accumulate, now))
  {
  }

  /** The score set the ranking view reads from the table. */
  function ScoresOf(rows: Rows): (scores: map<string, int>)
    ensures scores.Keys == rows.Keys
    ensures forall id :: id in rows ==> scores[id] == rows[id].score
  {
    map id | id in rows :: rows[id].score
  }

  class PlayerScoreRepository {
    var rows: Rows

    ghost predicate Valid()
      reads this
    {
      KeyedByPlayerId(rows)
    }

    /** Wraps an existing table, as the repository wraps the database context
        it is given. */
    constructor (rows: Rows)
      requires KeyedByPlayerId(rows)
      ensures Valid() && this.rows == rows
    {
      this.rows := rows;
    }

    /** `GetAsync`: the player's record, or none; reads only. */
    method Get(playerId: string) returns (record: Option<PlayerScore>)
      requires Valid()
      ensures record.Some? <==> playerId in rows
      ensures record.Some? ==> record.value == rows[playerId] && record.value.playerId == playerId
    {
      if playerId in rows {
        record := Some(rows[playerId]);
      } else {
        record := None;
      }
    }

    /** `UpsertAsync`: insert a new record, or overwrite / add to the score of
        the existing one, stamping it with `now` either way. */
    method Upsert(playerId: string, score: int, accumulate: bool, now: Instant)
      requires Valid() && IsInt64(score)
      modifies this
      ensures Valid()
      ensures rows == Upserted(old(rows), playerId, score, accumulate, now)
    {
      if playerId !in rows {
        var entity := PlayerScore(playerId, score, now);
        rows := rows[playerId := entity];
      } else {
        var entity := rows[playerId];
        entity := entity.(score := if accumulate then AddInt64(entity.score, score) else score);
        entity := entity.(updatedAt := now);
        rows := rows[playerId := entity];
      }
    }

    /** `ResetAsync`: `DELETE FROM PlayerScores`. */
    method Reset()
      modifies this
      ensures Valid() && rows == map[]
    {
      rows := map[];
    }
  }
}
