# PlayStudios leaderboard, modelled in Dafny

This project models the core of the PlayStudios leaderboard API. The API keeps one
score per player. It ranks players by **dense rank** (`DENSE_RANK() OVER (ORDER BY
Score DESC)`): tied scores share a rank, and the next distinct score takes the next
rank with no gap. For one player it answers with a snapshot: that player's rank and
score, the top N players, and the players whose rank lies within a configured window
around theirs. Both lists are ordered by rank, then by player id.

The modules follow the source files:

| module | file | models |
|---|---|---|
| `Text` | `Text.dfy` | the .NET string operations the core relies on: `Trim`, `IsNullOrWhiteSpace`, `OrdinalIgnoreCase` equality and ordinal order |
| `Domain` | `PlayerScore.dfy` | the `PlayerScore` record, its declared constraints, and the `RankedPlayer` and `RankAndScore` projections |
| `LeaderboardQueries` | `LeaderboardQueries.dfy` | the three SQL queries over the dense-rank CTE, as functions of the score table |
| `Repository` | `PlayerScoreRepository.dfy` | the score table as a class holding a `map` from player id to record, with get, upsert (replace or accumulate, with C# `long` wrap-around) and reset |
| `Config` | `LeaderboardSettings.dfy` | the settings, their defaults and the startup validator |
| `ScoreService` | `ScoreService.dfy` | the service: id normalisation, the update-mode choice and `BuildResponse` |
| `Controller` | `LeaderboardController.dfy` | the HTTP guards in front of the service, and the results they produce |
| `Wrappers` | `Wrappers.dfy` | `Option` and `Result` |

The database is a value: a `map<string, PlayerScore>` keyed by player id. Each query
is a function of that map. The repository is a class whose methods reassign the map.
The service and the controller are classes whose methods call the repository and
then evaluate the query functions on the new table. The clock (`DateTime.UtcNow`) is a
parameter `now`. A thrown `ArgumentException` becomes a `Failure`, and so does a
controller's `ValidationProblem`.

Key results:
- A dense rank lies between 1 and the number of distinct scores. A higher score gives a strictly better rank, and equal scores give equal ranks, in both directions (`DenseRankFollowsScore`). Every rank from 1 to the number of distinct scores is in use, so there are no gaps (`DenseRanksHaveNoGaps`).
- The ranking is sorted by (rank, ordinal id), a strict total order. Each player appears in it exactly once (`Ranking`). The top-N list is its first `min(N, count)` rows (`GetTop`, `TopHoldsLeadingRows`). The nearby window holds exactly the players whose rank lies in the clamped range (`GetNearby`).
- An upsert adds the key, stamps the time and leaves every other record alone. It stores the score on insert or in replace mode, and adds it with 64-bit wrap-around in accumulate mode (`Upserted` and its lemmas).
- The nearby list of a snapshot is the rank window minus the requester, in both directions (`NearbyIsWindowWithoutRequester`). Every entry in either list is the row of a stored player and agrees with the rank lookup for that player (`SnapshotEntriesAgreeWithRankLookup`).
- The controller's explicit guards accept a submission exactly when the trimmed id has 1 to 128 characters and the score is non-negative. It reports the id problem before the score problem, and a rejected request leaves the table unchanged.

## Model

| member | source | states |
|---|---|---|
| `Text.IsWhiteSpace` | PlayStudios.Leaderboard.API/Services/ScoreService.cs:38 | the characters .NET `char.IsWhiteSpace` accepts: the Unicode space separators, U+2028, U+2029, U+0009 to U+000D, U+0085 and U+00A0 |
| `Text.IsNullOrWhiteSpace` | PlayStudios.Leaderboard.API/Controllers/LeaderboardController.cs:40 | a (non-null) string is blank when every character is white space, the empty string included |
| `Text.Trim` | PlayStudios.Leaderboard.API/Services/ScoreService.cs:37 | the result is the contiguous slice of the input left after cutting the leading and trailing white space: every character cut off on either side is white space, and a non-empty result neither starts nor ends with white space |
| `Text.TrimStart` | PlayStudios.Leaderboard.API/Services/ScoreService.cs:37 | the result is a suffix of the input, every character removed is white space, and a non-empty result starts with a non-white character |
| `Text.TrimEnd` | PlayStudios.Leaderboard.API/Services/ScoreService.cs:37 | the result is a prefix of the input, every character removed is white space, and a non-empty result ends with a non-white character |
| `Text.TrimEmptyIffWhiteSpace` | PlayStudios.Leaderboard.API/Services/ScoreService.cs:37-38 | trimming yields the empty string exactly when the id is null, empty or white space, so the service's check after `Trim` is `IsNullOrWhiteSpace` of the raw id |
| `Text.TrimIdempotent` | PlayStudios.Leaderboard.API/Controllers/LeaderboardController.cs:57 | trimming twice equals trimming once, so the service's `Trim` of the id the controller already trimmed changes nothing |
| `Text.EqualsIgnoreCase` | PlayStudios.Leaderboard.API/Config/LeaderboardSettings.cs:51-52 | `OrdinalIgnoreCase` equality: equal lengths, and equal characters after upper-casing ASCII letters |
| `Text.OrdinalLessIrreflexive` | PlayStudios.Leaderboard.API/Infrastructure/LeaderboardQueries.cs:49 | the ordinal order on player ids (the `PlayerId` tie-break) never puts an id before itself |
| `Text.OrdinalLessTransitive` | PlayStudios.Leaderboard.API/Infrastructure/LeaderboardQueries.cs:49 | the ordinal order on player ids is transitive |
| `Text.OrdinalLessTotal` | PlayStudios.Leaderboard.API/Infrastructure/LeaderboardQueries.cs:49 | of two distinct player ids, one comes first in ordinal order |
| `Domain.MeetsDeclaredConstraints` | PlayStudios.Leaderboard.API/Domain/PlayerScore.cs:24-30 | the declared constraints of a record: an id of 1 to 128 characters and a score in `[0, long.MaxValue]` |
| `LeaderboardQueries.DenseRank` | PlayStudios.Leaderboard.API/Infrastructure/LeaderboardQueries.cs:24-28 | a player's dense rank lies between 1 and the number of distinct scores |
| `LeaderboardQueries.HigherScoreRanksAbove` | PlayStudios.Leaderboard.API/Infrastructure/LeaderboardQueries.cs:27 | a strictly higher score gets a strictly smaller (better) rank |
| `LeaderboardQueries.DenseRankFollowsScore` | PlayStudios.Leaderboard.API/Infrastructure/LeaderboardQueries.cs:27 | for two players, a higher score holds exactly when the rank is better, and equal scores hold exactly when the ranks are equal |
| `LeaderboardQueries.DenseRanksHaveNoGaps` | PlayStudios.Leaderboard.API/Infrastructure/LeaderboardQueries.cs:27 | the ranks in use are exactly 1 up to the number of distinct scores, with none skipped |
| `LeaderboardQueries.ExampleRanks` | PlayStudios.Leaderboard.API/Infrastructure/LeaderboardQueries.cs:24-28 | with scores A 100, B 90, C 90, D 80 the ranks are 1, 2, 2, 3 |
| `LeaderboardQueries.GetPlayerRank` | PlayStudios.Leaderboard.API/Infrastructure/LeaderboardQueries.cs:33-44 | the rank is positive exactly when the player has a row; an absent player gets the sentinel (-1, -1); a present one gets exactly their dense rank and their stored score, the rank being at most the number of distinct scores |
| `LeaderboardQueries.Row` | PlayStudios.Leaderboard.API/Infrastructure/LeaderboardQueries.cs:24-28 | the CTE's row for a stored player: their id, their score and their dense rank |
| `LeaderboardQueries.RowBefore` | PlayStudios.Leaderboard.API/Infrastructure/LeaderboardQueries.cs:49 | `ORDER BY [Rank], PlayerId`: a smaller rank first, and on equal ranks the ordinally smaller id first |
| `LeaderboardQueries.RowBeforeIrreflexive` | PlayStudios.Leaderboard.API/Infrastructure/LeaderboardQueries.cs:49 | `ORDER BY [Rank], PlayerId` never places a row before itself |
| `LeaderboardQueries.RowBeforeTransitive` | PlayStudios.Leaderboard.API/Infrastructure/LeaderboardQueries.cs:49 | `ORDER BY [Rank], PlayerId` is transitive |
| `LeaderboardQueries.RowBeforeTotal` | PlayStudios.Leaderboard.API/Infrastructure/LeaderboardQueries.cs:49 | rows of two distinct players are always ordered one way or the other, so the result order is deterministic |
| `LeaderboardQueries.SortRows` | PlayStudios.Leaderboard.API/Infrastructure/LeaderboardQueries.cs:49 | ordering a set of players yields one row per player, with that player's rank and score, sorted by rank then id, and no other rows |
| `LeaderboardQueries.Ranking` | PlayStudios.Leaderboard.API/Infrastructure/LeaderboardQueries.cs:24-28 | the full ranked table has one row per stored player, each with that player's score and dense rank, in `ORDER BY [Rank], PlayerId` order |
| `LeaderboardQueries.Where` | PlayStudios.Leaderboard.API/Infrastructure/LeaderboardQueries.cs:63 | a filter keeps exactly the rows that pass the predicate and keeps their order |
| `LeaderboardQueries.GetTop` | PlayStudios.Leaderboard.API/Infrastructure/LeaderboardQueries.cs:47-55 | `TOP(n)` returns `min(n, players)` rows, sorted by rank then id, each a true row of the ranked table |
| `LeaderboardQueries.TopHoldsLeadingRows` | PlayStudios.Leaderboard.API/Infrastructure/LeaderboardQueries.cs:49 | every player left out of the top list comes after every player in it |
| `LeaderboardQueries.GetNearby` | PlayStudios.Leaderboard.API/Infrastructure/LeaderboardQueries.cs:58-69 | the window is sorted and holds true rows; every row has rank at least 1 (the lower bound is clamped to 1) and within `target ± range`; a player is in the window exactly when their rank is in that range |
| `Repository.KeyedByPlayerId` | PlayStudios.Leaderboard.API/Domain/PlayerScore.cs:23 | the table is keyed by the primary key: each record is stored under its own player id |
| `Repository.AddInt64` | PlayStudios.Leaderboard.API/Infrastructure/PlayerScoreRepository.cs:40 | `long` addition: the sum is a 64-bit value, equal to the true sum when that fits, and congruent to it modulo 2^64 otherwise |
| `Repository.Upserted` | PlayStudios.Leaderboard.API/Infrastructure/PlayerScoreRepository.cs:30-44 | after an upsert the table is still keyed by player id and its keys gain only this id; the record carries the id and the new timestamp; its score is the submitted score on insert or replace, and the wrapped sum on accumulate; every other record is unchanged |
| `Repository.InsertStoresSubmittedScore` | PlayStudios.Leaderboard.API/Infrastructure/PlayerScoreRepository.cs:33-37 | a new player's record is exactly (id, submitted score, now), whatever the mode |
| `Repository.ReplaceIgnoresPreviousScore` | PlayStudios.Leaderboard.API/Infrastructure/PlayerScoreRepository.cs:40-41 | in replace mode the record becomes (id, submitted score, now) whether or not the player existed |
| `Repository.AccumulateAddsToStoredScore` | PlayStudios.Leaderboard.API/Infrastructure/PlayerScoreRepository.cs:40 | in accumulate mode, with no overflow, the new score is the stored score plus the submitted one |
| `Repository.AccumulateZeroKeepsScore` | PlayStudios.Leaderboard.API/Infrastructure/PlayerScoreRepository.cs:40-41 | accumulating 0 changes only the timestamp |
| `Repository.AccumulateTwiceSums` | PlayStudios.Leaderboard.API/Infrastructure/PlayerScoreRepository.cs:33-41 | two accumulating submissions by a new player leave the sum of both scores |
| `Repository.AccumulateCanWrapNegative` | PlayStudios.Leaderboard.API/Infrastructure/PlayerScoreRepository.cs:40 | accumulating 1 onto `long.MaxValue` wraps to `long.MinValue`; nothing in the code guards against it |
| `Repository.UpsertKeepsDeclaredConstraints` | PlayStudios.Leaderboard.API/Domain/PlayerScore.cs:23-31 | an upsert of a valid id and a non-negative score with no overflow keeps every record within the declared id length and score range |
| `Repository.ScoresOf` | PlayStudios.Leaderboard.API/Infrastructure/LeaderboardQueries.cs:26-28 | the score column of the table: one entry per player, holding that player's stored score |
| `Repository.PlayerScoreRepository.constructor` | PlayStudios.Leaderboard.API/Infrastructure/PlayerScoreRepository.cs:21 | the repository wraps the table it is given (keyed by player id) and leaves it as it is |
| `Repository.PlayerScoreRepository.Get` | PlayStudios.Leaderboard.API/Infrastructure/PlayerScoreRepository.cs:24-27 | returns a record exactly when the id is stored, and it is that id's record |
| `Repository.PlayerScoreRepository.Upsert` | PlayStudios.Leaderboard.API/Infrastructure/PlayerScoreRepository.cs:30-44 | the table becomes `Upserted` of the old table and stays keyed by player id |
| `Repository.PlayerScoreRepository.Reset` | PlayStudios.Leaderboard.API/Infrastructure/PlayerScoreRepository.cs:47-51 | the table becomes empty |
| `Config.Validate` | PlayStudios.Leaderboard.API/Config/LeaderboardSettings.cs:49-60 | validation succeeds exactly when the mode is Replace or Accumulate (ignoring ASCII case) and all three numbers are non-negative |
| `Config.ValidateReportsFirstFailure` | PlayStudios.Leaderboard.API/Config/LeaderboardSettings.cs:51-58 | each failure message is reported exactly when its check fails and every earlier check passed |
| `Config.DefaultsAreValid` | PlayStudios.Leaderboard.API/Config/LeaderboardSettings.cs:25-40 | the defaults (10, 2, 24, "Replace") pass validation and select replace mode |
| `ScoreService.ToDtos` | PlayStudios.Leaderboard.API/Services/ScoreService.cs:72 | the mapping to DTOs keeps length and order, one DTO per row |
| `ScoreService.ClampToZero` | PlayStudios.Leaderboard.API/Services/ScoreService.cs:64-65 | `Math.Max(0, x)`: negative limits become 0, others are kept |
| `ScoreService.UsesAccumulate` | PlayStudios.Leaderboard.API/Services/ScoreService.cs:39 | the update mode is accumulate exactly when the configured mode equals "Accumulate" ignoring case; any other value, "Replace" included, replaces |
| `ScoreService.BuildResponse` | PlayStudios.Leaderboard.API/Services/ScoreService.cs:62-94 | the snapshot echoes the id; its rank and score are the rank lookup; its top list is the top query with the limit clamped at 0, of length `min(limit, players)`; the nearby list is empty unless the player is ranked and the range is positive, and never holds the requester |
| `ScoreService.NearbyIsWindowWithoutRequester` | PlayStudios.Leaderboard.API/Services/ScoreService.cs:75-83 | for a ranked player and a positive range, another player is in the nearby list exactly when they are not the requester and their rank is within the clamped window |
| `ScoreService.TiedPlayersStayNearby` | PlayStudios.Leaderboard.API/Services/ScoreService.cs:75-83 | every other player with the requester's score appears in the nearby list |
| `ScoreService.SnapshotEntriesAgreeWithRankLookup` | PlayStudios.Leaderboard.API/Services/ScoreService.cs:68-83 | every entry of either list is the row of a stored player, with that player's dense rank and score, and agrees with the rank lookup for that player |
| `ScoreService.SnapshotListsOrdered` | PlayStudios.Leaderboard.API/Services/ScoreService.cs:71-83 | both lists come out ordered by rank, then by ordinal player id |
| `ScoreService.ValidatedSettingsNeedNoClamp` | PlayStudios.Leaderboard.API/Services/ScoreService.cs:39-65 | for settings that passed validation, clamping at 0 changes nothing, and accumulate mode is chosen exactly when the mode is not Replace |
| `ScoreService.EmptyBoardSnapshot` | PlayStudios.Leaderboard.API/Services/ScoreService.cs:62-94 | on an empty board (after a reset) the snapshot is (-1, -1) with two empty lists |
| `ScoreService.ScoreService.constructor` | PlayStudios.Leaderboard.API/Services/ScoreService.cs:24-29 | the service keeps the repository and the settings it was given |
| `ScoreService.ScoreService.Submit` | PlayStudios.Leaderboard.API/Services/ScoreService.cs:35-42 | a blank id fails and leaves the table alone; otherwise the table becomes the upsert of the trimmed id with the configured mode and the clock's time, and the result is the snapshot built from the new table |
| `ScoreService.ScoreService.GetLeaderboard` | PlayStudios.Leaderboard.API/Services/ScoreService.cs:47-52 | a blank id fails; otherwise the result is the snapshot for the trimmed id over the current table, which is left unchanged |
| `ScoreService.ScoreService.Reset` | PlayStudios.Leaderboard.API/Services/ScoreService.cs:55-58 | the table becomes empty |
| `Controller.CheckSubmit` | PlayStudios.Leaderboard.API/Controllers/LeaderboardController.cs:40-54 | a submission passes exactly when the trimmed id has 1 to 128 characters and the score is non-negative; the id problem is reported first, then the score problem; a pass yields the trimmed, non-blank id |
| `Controller.CheckGet` | PlayStudios.Leaderboard.API/Controllers/LeaderboardController.cs:68-70 | a query passes exactly when the id is not blank and trims to at most 128 characters, and yields the trimmed id; otherwise it reports the `playerId` problem |
| `Controller.AcceptedSubmitKeepsDeclaredConstraints` | PlayStudios.Leaderboard.API/Controllers/LeaderboardController.cs:40-57 | a submission that passes the guards, with no overflow, keeps every stored record within the declared id length and score range |
| `Controller.LeaderboardController.constructor` | PlayStudios.Leaderboard.API/Controllers/LeaderboardController.cs:29 | the controller keeps the service it was given |
| `Controller.LeaderboardController.Submit` | PlayStudios.Leaderboard.API/Controllers/LeaderboardController.cs:36-59 | a request that fails the guards returns their problem and leaves the table unchanged; one that passes upserts the trimmed id and returns the service's snapshot |
| `Controller.LeaderboardController.Get` | PlayStudios.Leaderboard.API/Controllers/LeaderboardController.cs:66-74 | fails with the `playerId` problem exactly when the guard rejects the id; otherwise returns the snapshot for the trimmed id over the current table |
| `Controller.LeaderboardController.Reset` | PlayStudios.Leaderboard.API/Controllers/LeaderboardController.cs:80-84 | empties the table and returns the message "Leaderboard reset" |

## Left out

- Entity Framework, SQL Server and the raw SQL text are not modelled. Each query is a function of the table, and the repository is a map.
- Async calls, cancellation tokens and the last-write-wins race between concurrent upserts are not modelled. Each call is one atomic step.
- `DateTime.UtcNow` is a parameter `now`. The initialiser `UpdatedAt = DateTime.UtcNow` on `PlayerScore` is covered by the insert path, which sets it explicitly.
- Unicode: `OrdinalIgnoreCase` is modelled by upper-casing ASCII letters only. A Dafny `char` is a Unicode code point, so string lengths count code points: the 128-character bound in `Controller.CheckSubmit` and `Controller.CheckGet` is on code points, whereas C# `Length` counts UTF-16 code units (an id of 65 characters outside the Basic Multilingual Plane has C# length 130 and is rejected there, but passes the model's guards). For the same reason `Text.OrdinalLess` compares code points, which orders characters above U+FFFF differently from a UTF-16 code-unit comparison. The column collation is modelled as ordinal order of the id.
- `ScoreService.ScoreService.Submit` and `ScoreService.ScoreService.GetLeaderboard` take a `string`; a `null` id is the empty string. The service maps `null` to empty before trimming, so both fail the same way.
- Data-annotation validation of `SubmitScoreRequest` and `LeaderboardSettings` (`[Required]`, `[Range]`, `[StringLength]`) and the automatic 400 response of `[ApiController]` are not modelled. The explicit guards in the controller and the options validator are.
- HTTP status codes and the `ValidationProblemDetails` envelope are reduced to a `Result` holding the field name and message.
- `ResetIntervalHours` is only validated. The source has no scheduled reset.
- `ValidateOptionsResult` carries only success or a failure message; its other fields and the named-options argument `name` are not modelled.
- `Repository.UpsertKeepsDeclaredConstraints`: the declared `[Range(0, long.MaxValue)]` is not enforced by the code; accumulate overflow wraps (`Repository.AccumulateCanWrapNegative`), so the lemma requires that the sum fits.
- `LeaderboardQueries.GetTop` takes a `nat`: the SQL `TOP` of a negative number is never reached, because `BuildResponse` clamps the limit at 0 first.
- Health checks, `Program.cs` wiring, the frontend and its API client are outside the core.
