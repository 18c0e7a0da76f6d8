/** The settings form's update rule (`handleInputChange`): which edits reach
    `onSettingsChange` and what they change. Rendering is not modelled. */
module SettingsPanel {
  import opened Wrappers

  /** The analysis configuration. `complexityAssumption` is a string because
      the handler stores whatever value the select hands it. */
  datatype AnalysisSettings = AnalysisSettings(maxN: int, step: int, runs: int, complexityAssumption: string)

  /** The keys of `AnalysisSettings`. */
  datatype SettingsKey = MaxN | Step | Runs | ComplexityAssumption

  /** The numeric field that `key` names. */
  function NumericField(s: AnalysisSettings, key: SettingsKey): int
    requires key != ComplexityAssumption
  {
    match key
    case MaxN => s.maxN
    case Step => s.step
    case Runs => s.runs
  }

  /** `s` and `t` agree on the field that `key` names. */
  predicate SameField(s: AnalysisSettings, t: AnalysisSettings, key: SettingsKey)
  {
    match key
    case MaxN => s.maxN == t.maxN
    case Step => s.step == t.step
    case Runs => s.runs == t.runs
    case ComplexityAssumption => s.complexityAssumption == t.complexityAssumption
  }

  /** The numeric fields the generator relies on are all positive. */
  predicate PositiveSizes(s: AnalysisSettings)
  {
    s.maxN > 0 && s.step > 0 && s.runs > 0
  }

  /** `{ ...settings, [key]: value }` for a numeric key. */
  function WithNumericField(s: AnalysisSettings, key: SettingsKey, value: int): AnalysisSettings
    requires key != ComplexityAssumption
  {
    match key
    case MaxN => s.(maxN := value)
    case Step => s.(step := value)
    case Runs => s.(runs := value)
  }

  /** `handleInputChange(key, value)`: `Some(s')` when it calls
      `onSettingsChange(s')`, `None` when it calls nothing. `parsed` is
      `parseInt(value)`, with `None` standing for NaN. */
  function HandleInputChange(settings: AnalysisSettings, key: SettingsKey, value: string, parsed: Option<int>): (update: Option<AnalysisSettings>)
    ensures key == ComplexityAssumption ==> update.Some? && update.value.complexityAssumption == value
    ensures key != ComplexityAssumption ==> (update.Some? <==> parsed.Some? && parsed.value > 0)
    ensures update.Some? && key != ComplexityAssumption ==> NumericField(update.value, key) == parsed.value
    ensures update.Some? ==> forall other :: other != key ==> SameField(update.value, settings, other)
    ensures update.Some? && PositiveSizes(settings) ==> PositiveSizes(update.value)
  {
    if key == ComplexityAssumption then
      Some(settings.(complexityAssumption := value))
    else if parsed.Some? && parsed.value > 0 then
      Some(WithNumericField(settings, key, parsed.value))
    else
      None
  }

  /** The settings held after the edit: the emitted ones, or the old ones when
      nothing was emitted. */
  function SettingsAfter(settings: AnalysisSettings, key: SettingsKey, value: string, parsed: Option<int>): (after: AnalysisSettings)
    ensures key != ComplexityAssumption && (parsed.None? || parsed.value <= 0) ==> after == settings
    ensures PositiveSizes(settings) ==> PositiveSizes(after)
  {
    match HandleInputChange(settings, key, value, parsed)
    case Some(s) => s
    case None => settings
  }
}
