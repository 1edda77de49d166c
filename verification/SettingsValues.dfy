/** The runtime-tunable compression knobs as plain values (config.go). */
module SettingsValues {
  import opened Wrappers

  datatype Settings = Settings(
    compressUserMessages: bool,
    compressSystemMessages: bool,
    protectRecent: int,
    protectAnalysisContext: bool,
    targetRatio: Option<real>,
    minTokensToCompress: int,
    kompressModel: Option<string>,
    savingsProfile: Option<string>)

  const DEFAULTS := Settings(false, true, 4, true, None, 250, None, None)

  const PROFILES: set<string> := {"agent-90", "balanced"}

  predicate GoodRatio(ratio: real) { 0.0 < ratio <= 1.0 }

  predicate GoodModel(model: string) { model != "" }

  predicate GoodProfile(profile: string) { profile in PROFILES }

  predicate Valid(s: Settings) {
    && s.protectRecent >= 0
    && s.minTokensToCompress >= 0
    && (s.targetRatio.Some? ==> GoodRatio(s.targetRatio.value))
    && (s.kompressModel.Some? ==> GoodModel(s.kompressModel.value))
    && (s.savingsProfile.Some? ==> GoodProfile(s.savingsProfile.value))
  }
}
