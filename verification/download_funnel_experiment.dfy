/** The experiment configuration of
    `src/amo/experiments/20210531_download_funnel_experiment.js`. Unlike the
    install-warning experiment, `shouldExcludeUser` takes the state itself,
    and the module exports the configuration wrapped as `{ experimentConfig }`. */
module DownloadFunnelExperiment {
  import opened Wrappers
  import opened WithExperiment
  import InstallWarningExperiment

  const VARIANT_CURRENT: string := "current-link"
  const VARIANT_NEW: string := "new-link"

  type AppState<U> = InstallWarningExperiment.AppState<U>
  type ExperimentConfig = InstallWarningExperiment.ExperimentConfig

  const experimentConfig: ExperimentConfig := InstallWarningExperiment.ExperimentConfig(
    "20210531_download_funnel_experiment",
    [ExperimentVariant(VARIANT_CURRENT, 0.5), ExperimentVariant(VARIANT_NEW, 0.5)])

  /** The exported value: an object holding the configuration. */
  datatype ExportedConfig = ExportedConfig(experimentConfig: ExperimentConfig)

  const EXPERIMENT_CONFIG: ExportedConfig := ExportedConfig(experimentConfig)

  /** Firefox users are excluded. */
  function ShouldExcludeUser<U>(isFirefox: U -> bool, state: AppState<U>): (excluded: bool)
    ensures excluded <==> isFirefox(state.api.userAgentInfo)
  {
    var userAgentInfo := state.api.userAgentInfo;
    isFirefox(userAgentInfo)
  }

  lemma ConfigIsWellFormed()
    ensures EXPERIMENT_CONFIG.experimentConfig == experimentConfig
    ensures MatchesIdPattern(experimentConfig.id)
    ensures Wrap(Some(experimentConfig.id), Some(experimentConfig.variants), None).Ok?
    ensures SumOfPercentages(experimentConfig.variants) == 1.0
    ensures NonNegativePercentages(experimentConfig.variants)
    ensures experimentConfig.variants[0].id != experimentConfig.variants[1].id
    ensures forall v :: v in experimentConfig.variants ==> v.id != NOT_IN_EXPERIMENT
  {
    assert IdPatternAt(experimentConfig.id, 0);
    assert PartialSum(experimentConfig.variants, 1) == 0.5;
  }

  lemma EveryDrawIsAllocated(draw: real)
    requires 0.0 < draw <= 1.0
    ensures GetVariant(experimentConfig.variants, draw).Ok?
    ensures GetVariant(experimentConfig.variants, draw).value.id in {VARIANT_CURRENT, VARIANT_NEW}
    ensures GetVariant(experimentConfig.variants, draw).value.id == VARIANT_CURRENT <==> draw <= 0.5
  {
    ConfigIsWellFormed();
    var vs := experimentConfig.variants;
    if draw <= 0.5 {
      FirstRunningTotalReachingDraw(vs, draw, 0);
    } else {
      FirstRunningTotalReachingDraw(vs, draw, 1);
    }
  }
}
