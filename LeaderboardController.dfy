/** The HTTP controller's own logic: the input guards of `Submit` and `Get`,
    each naming the offending field, and the delegation of all three endpoints
    to the service. */
module Controller {
  import opened Wrappers
  import opened Text
  import opened Domain
  import opened Repository
  import opened ScoreService

  /** The body of `POST /api/submit`; a missing id is `None`. */
  datatype SubmitScoreRequest = SubmitScoreRequest(playerId: Option<string>, score: int)

  /** A 400 answer: the field it names and the message for it. */
  datatype ValidationProblem = ValidationProblem(field: string, message: string)

  const PlayerIdProblem: ValidationProblem :=
    ValidationProblem("PlayerId", "PlayerId is required and must be <= 128 characters.")
  const ScoreProblem: ValidationProblem :=
    ValidationProblem("Score", "Score must be non-negative.")
  const QueryPlayerIdProblem: ValidationProblem :=
    ValidationProblem("playerId", "playerId is required and must be <= 128 characters.")
  const ResetMessage: string := "Leaderboard reset"

  /** What both endpoints accept as a player id: present, and 1 to 128
      characters once trimmed. */
  predicate AcceptableId(id: Option<string>) {
    id.Some? && 1 <= |Trim(id.value)| <= PlayerIdMaxLength
  }

  /** `Submit`'s guards in their order: the id check first, the score check
      second; an accepted request goes on with the trimmed id. */
  function CheckSubmit(request: SubmitScoreRequest): (r: Result<string, ValidationProblem>)
    ensures r.Success? <==> AcceptableId(request.playerId) && request.score >= 0
    ensures r.Success? ==> r.value == Trim(request.playerId.value) && !IsNullOrWhiteSpace(r.value)
    ensures !AcceptableId(request.playerId) ==> r == Failure(PlayerIdProblem)
    ensures AcceptableId(request.playerId) && request.score < 0 ==> r == Failure(ScoreProblem)
  {
    if request.playerId.None? then Failure(PlayerIdProblem)
    else
      var id := request.playerId.value;
      TrimEmptyIffWhiteSpace(id);
      if IsNullOrWhiteSpace(id) || |Trim(id)| == 0 || |Trim(id)| > PlayerIdMaxLength then
        Failure(PlayerIdProblem)
      else if request.score < 0 then
        Failure(ScoreProblem)
      else
        Success(Trim(id))
  }

  /** `Get`'s guard: a blank or over-long id is refused; otherwise the request
      goes on with the trimmed id. */
  function CheckGet(playerId: Option<string>): (r: Result<string, ValidationProblem>)
    ensures r.Success? <==> AcceptableId(playerId)
    ensures r.Success? ==> r.value == Trim(playerId.value) && !IsNullOrWhiteSpace(r.value)
    ensures r.Failure? ==> r.error == QueryPlayerIdProblem
  {
    if playerId.None? then Failure(QueryPlayerIdProblem)
    else
      var id := playerId.value;
      TrimEmptyIffWhiteSpace(id);
      if IsNullOrWhiteSpace(id) || |Trim(id)| > PlayerIdMaxLength then
        Failure(QueryPlayerIdProblem)
      else
        Success(Trim(id))
  }

  /** A submission the controller accepts keeps every stored record within its
      declared constraints, unless an accumulated sum overflows. */
  lemma AcceptedSubmitKeepsDeclaredConstraints(
    rows: Rows, request: SubmitScoreRequest, accumulate: bool, now: Instant)
    requires KeyedByPlayerId(rows) && AllMeetDeclaredConstraints(rows)
    requires CheckSubmit(request).Success? && IsInt64(request.score)
    requires var id := CheckSubmit(request).value;
             accumulate && id in rows ==> rows[id].score + request.score <= LongMax
    ensures AllMeetDeclaredConstraints(Upserted(rows, CheckSubmit(request).value, request.score, accumulate, now))
  {
    UpsertKeepsDeclaredConstraints(rows, CheckSubmit(request).value, request.score, accumulate, now);
  }

  class LeaderboardController {
    const service: ScoreService

    constructor (service: ScoreService)
      ensures this.service == service
    {
      this.service := service;
    }

    /** `POST /api/submit`: the guards, then the service with the trimmed id
        and the unchanged score. */
    method Submit(request: SubmitScoreRequest, now: Instant) returns (r: Result<LeaderboardResponse, ValidationProblem>)
      requires service.repo.Valid() && IsInt64(request.score)
      modifies service.repo
      ensures service.repo.Valid()
      ensures r.Success? <==> CheckSubmit(request).Success?
      ensures r.Failure? ==> r.error == CheckSubmit(request).error && service.repo.rows == old(service.repo.rows)
      ensures r.Success? ==>
                var id := CheckSubmit(request).value;
                service.repo.rows == Upserted(old(service.repo.rows), id, request.score, UsesAccumulate(service.settings), now)
                && r.value == BuildResponse(ScoresOf(service.repo.rows), service.settings, id)
    {
      var checked := CheckSubmit(request);
      if checked.Failure? {
        return Failure(checked.error);
      }
      var id := checked.value;
      var result := service.Submit(id, request.score, now);
      r := Success(result.value);
    }

    /** `GET /api/leaderboard`: the guard, then the service with the trimmed id;
        the store is only read. */
    method Get(playerId: Option<string>) returns (r: Result<LeaderboardResponse, ValidationProblem>)
      requires service.repo.Valid()
      ensures r.Failure? <==> !AcceptableId(playerId)
      ensures r.Failure? ==> r.error == QueryPlayerIdProblem
      ensures r.Success? ==> r.value == BuildResponse(ScoresOf(service.repo.rows), service.settings, Trim(playerId.value))
    {
      var checked := CheckGet(playerId);
      if checked.Failure? {
        return Failure(checked.error);
      }
      var result := service.GetLeaderboard(checked.value);
      return Success(result.value);
    }

    /** `POST /api/reset`: the service's reset and a fixed confirmation. */
    method Reset() returns (message: string)
      modifies service.repo
      ensures service.repo.Valid() && service.repo.rows == map[]
      ensures message == ResetMessage
    {
      service.Reset();
      message := ResetMessage;
    }
  }
}
