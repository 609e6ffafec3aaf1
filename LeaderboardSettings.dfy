/** The leaderboard's configuration (`Leaderboard` section) and the startup
    validator that rejects an unknown update mode or a negative limit. */
module Config {
  import opened Text

  datatype LeaderboardSettings = LeaderboardSettings(
    topLimit: int,
    nearbyRange: int,
    resetIntervalHours: int,
    updateMode: string)

  /** The values a settings object starts with before configuration is bound. */
  const Defaults: LeaderboardSettings := LeaderboardSettings(10, 2, 24, "Replace")

  const UpdateModeMessage: string := "Leaderboard:UpdateMode must be either 'Replace' or 'Accumulate'."
  const TopLimitMessage: string := "Leaderboard:TopLimit must be >= 0."
  const NearbyRangeMessage: string := "Leaderboard:NearbyRange must be >= 0."
  const ResetIntervalMessage: string := "Leaderboard:ResetIntervalHours must be >= 0."

  datatype ValidateOptionsResult = Success | Fail(message: string)

  /** The update mode names one of the two policies, ignoring case. */
  predicate IsKnownUpdateMode(mode: string) {
    EqualsIgnoreCase(mode, "Replace") || EqualsIgnoreCase(mode, "Accumulate")
  }

  /** `LeaderboardSettingsValidator.Validate`: the checks in order, the first
      failing one deciding the message. */
  function Validate(options: LeaderboardSettings): (r: ValidateOptionsResult)
    ensures r.Success? <==>
              IsKnownUpdateMode(options.updateMode) && options.topLimit >= 0
              && options.nearbyRange >= 0 && options.resetIntervalHours >= 0
  {
    if !EqualsIgnoreCase(options.updateMode, "Replace") && !EqualsIgnoreCase(options.updateMode, "Accumulate") then
      Fail(UpdateModeMessage)
    else if options.topLimit < 0 then Fail(TopLimitMessage)
    else if options.nearbyRange < 0 then Fail(NearbyRangeMessage)
    else if options.resetIntervalHours < 0 then Fail(ResetIntervalMessage)
    else Success
  }

  /** Which message a failing validation reports: the first check that fails
      wins, so a bad update mode hides every bad limit, and so on down. */
  lemma ValidateReportsFirstFailure(options: LeaderboardSettings)
    ensures Validate(options) == Fail(UpdateModeMessage) <==> !IsKnownUpdateMode(options.updateMode)
    ensures Validate(options) == Fail(TopLimitMessage) <==>
              IsKnownUpdateMode(options.updateMode) && options.topLimit < 0
    ensures Validate(options) == Fail(NearbyRangeMessage) <==>
              IsKnownUpdateMode(options.updateMode) && options.topLimit >= 0 && options.nearbyRange < 0
    ensures Validate(options) == Fail(ResetIntervalMessage) <==>
              IsKnownUpdateMode(options.updateMode) && options.topLimit >= 0 && options.nearbyRange >= 0
              && options.resetIntervalHours < 0
  {
  }

  /** The defaults pass validation and select replace mode. */
  lemma DefaultsAreValid()
    ensures Validate(Defaults) == Success
    ensures EqualsIgnoreCase(Defaults.updateMode, "Replace") && !EqualsIgnoreCase(Defaults.updateMode, "Accumulate")
  {
  }
}
