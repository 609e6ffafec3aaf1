/** The service layer: a submission writes through the repository under the
    configured update mode, and every request is answered with a snapshot
    assembled from the ranking queries. */
module ScoreService {
  import opened Wrappers
  import opened Text
  import opened Domain
  import opened LeaderboardQueries
  import opened Repository
  import Config

  datatype LeaderboardPlayerDto = LeaderboardPlayerDto(playerId: string, score: int, rank: int)

  /** The snapshot returned to the caller. */
  datatype LeaderboardResponse = LeaderboardResponse(
    playerId: string,
    playerRank: int,
    playerScore: int,
    topPlayers: seq<LeaderboardPlayerDto>,
    nearbyPlayers: seq<LeaderboardPlayerDto>)

  /** The `ArgumentException` raised for a missing player id. */
  datatype ServiceError = PlayerIdRequired

  function ToDto(row: RankedPlayer): LeaderboardPlayerDto {
    LeaderboardPlayerDto(row.playerId, row.score, row.rank)
  }

  /** `Select(r => new LeaderboardPlayerDto(...))`: one entry per row, in order. */
  function ToDtos(rows: seq<RankedPlayer>): (dtos: seq<LeaderboardPlayerDto>)
    ensures |dtos| == |rows|
    ensures forall i :: 0 <= i < |rows| ==> dtos[i] == ToDto(rows[i])
  {
    seq(|rows|, i requires 0 <= i < |rows| => ToDto(rows[i]))
  }

  /** `Math.Max(0, x)`. */
  function ClampToZero(x: int): nat {
    if x < 0 then 0 else x
  }

  /** Submissions accumulate exactly when the update mode is "Accumulate",
      ignoring case; any other mode replaces. */
  predicate UsesAccumulate(settings: Config.LeaderboardSettings) {
    EqualsIgnoreCase(settings.updateMode, "Accumulate")
  }

  /** `BuildResponse`: the player's own rank and score, the top rows, and the
      rank window around the player without the player's own row. */
  function BuildResponse(scores: ScoreSet, settings: Config.LeaderboardSettings, playerId: string): (resp: LeaderboardResponse)
    ensures resp.playerId == playerId
    ensures RankAndScore(resp.playerRank, resp.playerScore) == GetPlayerRank(scores, playerId)
    ensures resp.topPlayers == ToDtos(GetTop(scores, ClampToZero(settings.topLimit)))
    ensures |resp.topPlayers| == Min(ClampToZero(settings.topLimit), |scores|)
    ensures !(resp.playerRank > 0 && settings.nearbyRange > 0) ==> resp.nearbyPlayers == []
    ensures forall d :: d in resp.nearbyPlayers ==> d.playerId != playerId
  {
    var topLimit := ClampToZero(settings.topLimit);
    var nearbyRange := ClampToZero(settings.nearbyRange);
    var rankAndScore := GetPlayerRank(scores, playerId);
    var top := ToDtos(GetTop(scores, topLimit));
    var nearby :=
      if rankAndScore.rank > 0 && nearbyRange > 0 then
        ToDtos(Where(GetNearby(scores, rankAndScore.rank, nearbyRange), (row: RankedPlayer) => row.playerId != playerId))
      else
        [];
    LeaderboardResponse(playerId, rankAndScore.rank, rankAndScore.score, top, nearby)
  }

  /** The nearby list is the requester's rank window with exactly the
      requester's own id removed: players tied with the requester stay. */
  lemma NearbyIsWindowWithoutRequester(scores: ScoreSet, settings: Config.LeaderboardSettings, playerId: string, q: string)
    requires playerId in scores && settings.nearbyRange > 0 && q in scores
    ensures ToDto(Row(scores, q)) in BuildResponse(scores, settings, playerId).nearbyPlayers
        <==> q != playerId
             && DenseRank(scores, playerId) - settings.nearbyRange <= DenseRank(scores, q)
             && DenseRank(scores, q) <= DenseRank(scores, playerId) + settings.nearbyRange
  {
    var rank := DenseRank(scores, playerId);
    var window := GetNearby(scores, rank, settings.nearbyRange);
    var kept := Where(window, (row: RankedPlayer) => row.playerId != playerId);
    var nearby := BuildResponse(scores, settings, playerId).nearbyPlayers;
    assert nearby == ToDtos(kept);
    if ToDto(Row(scores, q)) in nearby {
      var i :| 0 <= i < |nearby| && nearby[i] == ToDto(Row(scores, q));
      assert kept[i] == Row(scores, q);
    }
    if q != playerId && Row(scores, q) in window {
      var i :| 0 <= i < |kept| && kept[i] == Row(scores, q);
      assert nearby[i] == ToDto(Row(scores, q));
    }
  }

  /** Players with the requester's score but another id appear in the nearby list. */
  lemma TiedPlayersStayNearby(scores: ScoreSet, settings: Config.LeaderboardSettings, playerId: string, q: string)
    requires playerId in scores && settings.nearbyRange > 0 && q in scores
    requires q != playerId && scores[q] == scores[playerId]
    ensures ToDto(Row(scores, q)) in BuildResponse(scores, settings, playerId).nearbyPlayers
  {
    DenseRankFollowsScore(scores, q, playerId);
    NearbyIsWindowWithoutRequester(scores, settings, playerId, q);
  }

  /** Every entry of both lists carries the rank and score the single-player
      lookup reports for that player. */
  lemma SnapshotEntriesAgreeWithRankLookup(scores: ScoreSet, settings: Config.LeaderboardSettings, playerId: string)
    ensures forall d :: d in BuildResponse(scores, settings, playerId).topPlayers
              ==> d.playerId in scores && d == ToDto(Row(scores, d.playerId))
                  && GetPlayerRank(scores, d.playerId) == RankAndScore(d.rank, d.score)
    ensures forall d :: d in BuildResponse(scores, settings, playerId).nearbyPlayers
              ==> d.playerId in scores && d == ToDto(Row(scores, d.playerId))
                  && GetPlayerRank(scores, d.playerId) == RankAndScore(d.rank, d.score)
  {
    var resp := BuildResponse(scores, settings, playerId);
    var top := GetTop(scores, ClampToZero(settings.topLimit));
    forall d | d in resp.topPlayers
      ensures d.playerId in scores && d == ToDto(Row(scores, d.playerId))
      ensures GetPlayerRank(scores, d.playerId) == RankAndScore(d.rank, d.score)
    {
      var i :| 0 <= i < |resp.topPlayers| && resp.topPlayers[i] == d;
      assert top[i] in top;
    }
    if resp.playerRank > 0 && settings.nearbyRange > 0 {
      var kept := Where(GetNearby(scores, resp.playerRank, ClampToZero(settings.nearbyRange)),
                        (row: RankedPlayer) => row.playerId != playerId);
      assert resp.nearbyPlayers == ToDtos(kept);
      forall d | d in resp.nearbyPlayers
        ensures d.playerId in scores && d == ToDto(Row(scores, d.playerId))
      ensures GetPlayerRank(scores, d.playerId) == RankAndScore(d.rank, d.score)
      {
        var i :| 0 <= i < |resp.nearbyPlayers| && resp.nearbyPlayers[i] == d;
        assert kept[i] in kept;
      }
    }
  }

  /** Entries in `ORDER BY [Rank], PlayerId` order. */
  predicate DtosOrdered(dtos: seq<LeaderboardPlayerDto>) {
    forall i, j :: 0 <= i < j < |dtos| ==>
      dtos[i].rank < dtos[j].rank || (dtos[i].rank == dtos[j].rank && OrdinalLess(dtos[i].playerId, dtos[j].playerId))
  }

  lemma ToDtosKeepsOrder(rows: seq<RankedPlayer>)
    requires Sorted(rows)
    ensures DtosOrdered(ToDtos(rows))
  {
    var dtos := ToDtos(rows);
    forall i, j | 0 <= i < j < |dtos|
      ensures dtos[i].rank < dtos[j].rank || (dtos[i].rank == dtos[j].rank && OrdinalLess(dtos[i].playerId, dtos[j].playerId))
    {
      assert RowBefore(rows[i], rows[j]);
    }
  }

  /** Both lists of a snapshot are ordered by rank, then player id. */
  lemma SnapshotListsOrdered(scores: ScoreSet, settings: Config.LeaderboardSettings, playerId: string)
    ensures DtosOrdered(BuildResponse(scores, settings, playerId).topPlayers)
    ensures DtosOrdered(BuildResponse(scores, settings, playerId).nearbyPlayers)
  {
    var resp := BuildResponse(scores, settings, playerId);
    ToDtosKeepsOrder(GetTop(scores, ClampToZero(settings.topLimit)));
    if resp.playerRank > 0 && settings.nearbyRange > 0 {
      var kept := Where(GetNearby(scores, resp.playerRank, ClampToZero(settings.nearbyRange)),
                        (row: RankedPlayer) => row.playerId != playerId);
      assert resp.nearbyPlayers == ToDtos(kept);
      ToDtosKeepsOrder(kept);
    }
  }

  /** Settings that passed validation are used as configured: clamping changes
      nothing, and the mode is accumulate exactly when it is not replace. */
  lemma ValidatedSettingsNeedNoClamp(settings: Config.LeaderboardSettings)
    requires Config.Validate(settings).Success?
    ensures ClampToZero(settings.topLimit) == settings.topLimit
    ensures ClampToZero(settings.nearbyRange) == settings.nearbyRange
    ensures UsesAccumulate(settings) <==> !EqualsIgnoreCase(settings.updateMode, "Replace")
  {
  }

  /** The empty board (after a reset): the not-found sentinel and empty lists. */
  lemma EmptyBoardSnapshot(settings: Config.LeaderboardSettings, playerId: string)
    ensures BuildResponse(map[], settings, playerId) == LeaderboardResponse(playerId, -1, -1, [], [])
  {
  }

  class ScoreService {
    const repo: PlayerScoreRepository
    const settings: Config.LeaderboardSettings

    constructor (repo: PlayerScoreRepository, settings: Config.LeaderboardSettings)
      ensures this.repo == repo && this.settings == settings
    {
      this.repo := repo;
      this.settings := settings;
    }

    /** `SubmitAsync`: reject a blank id; otherwise one upsert of the trimmed id
        and the unchanged score, then the snapshot for that id. */
    method Submit(playerId: string, score: int, now: Instant) returns (r: Result<LeaderboardResponse, ServiceError>)
      requires repo.Valid() && IsInt64(score)
      modifies repo
      ensures repo.Valid()
      ensures r.Failure? <==> IsNullOrWhiteSpace(playerId)
      ensures r.Failure? ==> repo.rows == old(repo.rows)
      ensures r.Success? ==>
                repo.rows == Upserted(old(repo.rows), Trim(playerId), score, UsesAccumulate(settings), now)
                && r.value == BuildResponse(ScoresOf(repo.rows), settings, Trim(playerId))
    {
      var pid := Trim(playerId);
      TrimEmptyIffWhiteSpace(playerId);
      if IsNullOrWhiteSpace(pid) {
        return Failure(PlayerIdRequired);
      }
      var accumulate := UsesAccumulate(settings);
      repo.Upsert(pid, score, accumulate, now);
      var response := BuildResponse(ScoresOf(repo.rows), settings, pid);
      return Success(response);
    }

    /** `GetLeaderboardAsync`: reject a blank id; otherwise the snapshot for the
        trimmed id, with the store left as it was. */
    method GetLeaderboard(playerId: string) returns (r: Result<LeaderboardResponse, ServiceError>)
      requires repo.Valid()
      ensures r.Failure? <==> IsNullOrWhiteSpace(playerId)
      ensures r.Success? ==> r.value == BuildResponse(ScoresOf(repo.rows), settings, Trim(playerId))
    {
      var pid := Trim(playerId);
      TrimEmptyIffWhiteSpace(playerId);
      if IsNullOrWhiteSpace(pid) {
        return Failure(PlayerIdRequired);
      }
      var response := BuildResponse(ScoresOf(repo.rows), settings, pid);
      return Success(response);
    }

    /** `ResetAsync`: delegates to the repository's reset. */
    method Reset()
      modifies repo
      ensures repo.Valid() && repo.rows == map[]
    {
      repo.Reset();
    }
  }
}
