/** The experiment configuration of
    `src/amo/experiments/20210622_install_warning_experiment.js`.
    `isFirefox` (from `amo/utils/compatibility`) is a parameter. */
module InstallWarningExperiment {
  import opened Wrappers
  import opened WithExperiment

  const VARIANT_CURRENT: string := "do-not-show-warning"
  const VARIANT_NEW: string := "show-warning"

  datatype ApiState<U> = ApiState(userAgentInfo: U)
  datatype AppState<U> = AppState(api: ApiState<U>)

  /** The object `shouldExcludeUser` is called with: `{ state }`. */
  datatype ExclusionArgs<U> = ExclusionArgs(state: AppState<U>)

  datatype ExperimentConfig = ExperimentConfig(id: string, variants: seq<ExperimentVariant>)

  const EXPERIMENT_CONFIG: ExperimentConfig := ExperimentConfig(
    "20210622_install_warning_experiment",
    [ExperimentVariant(VARIANT_CURRENT, 0.5), ExperimentVariant(VARIANT_NEW, 0.5)])

  /** Firefox users are excluded. */
  function ShouldExcludeUser<U>(isFirefox: U -> bool, args: ExclusionArgs<U>): (excluded: bool)
    ensures excluded <==> isFirefox(args.state.api.userAgentInfo)
  {
    var userAgentInfo := args.state.api.userAgentInfo;
    isFirefox(userAgentInfo)
  }

  /** The configuration passes the wrap-time checks and the allocator's sum
      check; its two variants are distinct real treatments. */
  lemma ConfigIsWellFormed()
    ensures MatchesIdPattern(EXPERIMENT_CONFIG.id)
    ensures Wrap(Some(EXPERIMENT_CONFIG.id), Some(EXPERIMENT_CONFIG.variants), None).Ok?
    ensures SumOfPercentages(EXPERIMENT_CONFIG.variants) == 1.0
    ensures NonNegativePercentages(EXPERIMENT_CONFIG.variants)
    ensures EXPERIMENT_CONFIG.variants[0].id != EXPERIMENT_CONFIG.variants[1].id
    ensures forall v :: v in EXPERIMENT_CONFIG.variants ==> v.id != NOT_IN_EXPERIMENT
  {
    assert IdPatternAt(EXPERIMENT_CONFIG.id, 0);
    assert PartialSum(EXPERIMENT_CONFIG.variants, 1) == 0.5;
  }

  /** Every draw of `(0, 1]` puts the user in one of the two variants, and
      the first half of the range goes to the current behaviour. */
  lemma EveryDrawIsAllocated(draw: real)
    requires 0.0 < draw <= 1.0
    ensures GetVariant(EXPERIMENT_CONFIG.variants, draw).Ok?
    ensures GetVariant(EXPERIMENT_CONFIG.variants, draw).value.id in {VARIANT_CURRENT, VARIANT_NEW}
    ensures GetVariant(EXPERIMENT_CONFIG.variants, draw).value.id == VARIANT_CURRENT <==> draw <= 0.5
  {
    ConfigIsWellFormed();
    var vs := EXPERIMENT_CONFIG.variants;
    if draw <= 0.5 {
      FirstRunningTotalReachingDraw(vs, draw, 0);
    } else {
      FirstRunningTotalReachingDraw(vs, draw, 1);
    }
  }
}
