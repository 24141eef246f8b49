/** The columns of the metrics table, the sources that fill them, and the numbers in them. */
module MetricsFields {
  import opened Common

  datatype Source = Profile | Factory | Model | Issue | Kubernetes | Gpu | Rl

  datatype Field =
    | RunId
    | Provider | ModelName | ProviderBase
    | Status | WallSeconds | OperationCount | CompletedOperations | StageCheckpointCount | AttemptCount | RetryCount
    | StageSequenceVerified
    | ResponseCount | TotalTokens | InputTokens | CachedInputTokens | CacheWriteInputTokens | OutputTokens
    | ReasoningOutputTokens | ToolStartedCount | ContextCompactedCount
    | CudaOptimizerStepPassed | FocusedTestCount | FocusedTestSeconds | PpoConfiguredSteps | PpoCompletedSteps
    | PpoLastLoggedStep | PpoCompletionVerified | PpoFinalSps | PpoLastTrainingReturn
    | PodCount | PendingPods | RunningPods | SucceededPods | FailedPods | UnknownPods | PodRestartCount
    | RuntimeClassPods | IsolatedWorkspacePods
    | GpuCount | SampleCount | GpuSampleCount | GpuSeconds | GpuSampleSpanSeconds | GpuUtilizationMeanPct
    | GpuUtilizationMaxPct | GpuMemoryMeanMib | GpuMemoryPeakMib | GpuPowerMeanWatts | GpuPowerPeakWatts
    | TrainingSteps | FinalObservedStep | TrainingSps | EvaluationEpisodes | EvaluationReturnMean
    | EvaluationReturnStddev | CheckpointBytes | CheckpointSha256

  /** The metrics every observation of a source has, under the names it gives them. */
  function Required(source: Source): seq<Field>
  {
    match source
    case Profile => [Provider, ModelName, ProviderBase]
    case Factory => [Status, WallSeconds, OperationCount, CompletedOperations, StageCheckpointCount, AttemptCount,
                     RetryCount, StageSequenceVerified]
    case Model => [ResponseCount, TotalTokens, InputTokens, CachedInputTokens, CacheWriteInputTokens, OutputTokens,
                   ReasoningOutputTokens, ToolStartedCount, ContextCompactedCount]
    case Issue => [CudaOptimizerStepPassed, FocusedTestCount, FocusedTestSeconds, PpoConfiguredSteps,
                   PpoCompletedSteps, PpoLastLoggedStep, PpoCompletionVerified, PpoFinalSps, PpoLastTrainingReturn]
    case Kubernetes => [PodCount, PendingPods, RunningPods, SucceededPods, FailedPods, UnknownPods, PodRestartCount,
                        RuntimeClassPods, IsolatedWorkspacePods]
    case Gpu => [GpuCount, SampleCount, GpuSeconds, GpuSampleSpanSeconds, GpuUtilizationMeanPct, GpuUtilizationMaxPct]
    case Rl => [TrainingSteps, FinalObservedStep, TrainingSps, EvaluationEpisodes, EvaluationReturnMean,
                EvaluationReturnStddev, CheckpointBytes, CheckpointSha256]
  }

  /** The metrics an observation of a source may have besides. */
  function Optional(source: Source): seq<Field>
  {
    if source.Gpu? then [GpuMemoryMeanMib, GpuMemoryPeakMib, GpuPowerMeanWatts, GpuPowerPeakWatts] else []
  }

  /** The column a metric goes to. */
  function Column(field: Field): Field
  {
    if field.SampleCount? then GpuSampleCount else field
  }

  predicate IsProfileField(field: Field)
    ensures IsProfileField(field) <==> Owner(field) == Some(Profile)
  {
    field.Provider? || field.ModelName? || field.ProviderBase?
  }

  predicate IsFactoryField(field: Field)
    ensures IsFactoryField(field) <==> Owner(field) == Some(Factory)
  {
    field.Status? || field.WallSeconds? || field.OperationCount? || field.CompletedOperations?
    || field.StageCheckpointCount? || field.AttemptCount? || field.RetryCount? || field.StageSequenceVerified?
  }

  predicate IsModelField(field: Field)
    ensures IsModelField(field) <==> Owner(field) == Some(Model)
  {
    field.ResponseCount? || field.TotalTokens? || field.InputTokens? || field.CachedInputTokens?
    || field.CacheWriteInputTokens? || field.OutputTokens? || field.ReasoningOutputTokens?
    || field.ToolStartedCount? || field.ContextCompactedCount?
  }

  predicate IsIssueField(field: Field)
    ensures IsIssueField(field) <==> Owner(field) == Some(Issue)
  {
    field.CudaOptimizerStepPassed? || field.FocusedTestCount? || field.FocusedTestSeconds?
    || field.PpoConfiguredSteps? || field.PpoCompletedSteps? || field.PpoLastLoggedStep?
    || field.PpoCompletionVerified? || field.PpoFinalSps? || field.PpoLastTrainingReturn?
  }

  predicate IsKubernetesField(field: Field)
    ensures IsKubernetesField(field) <==> Owner(field) == Some(Kubernetes)
  {
    field.PodCount? || field.PendingPods? || field.RunningPods? || field.SucceededPods? || field.FailedPods?
    || field.UnknownPods? || field.PodRestartCount? || field.RuntimeClassPods? || field.IsolatedWorkspacePods?
  }

  predicate IsGpuField(field: Field)
    ensures IsGpuField(field) <==> Owner(field) == Some(Gpu)
  {
    field.GpuCount? || field.SampleCount? || field.GpuSampleCount? || field.GpuSeconds?
    || field.GpuSampleSpanSeconds? || field.GpuUtilizationMeanPct? || field.GpuUtilizationMaxPct?
    || field.GpuMemoryMeanMib? || field.GpuMemoryPeakMib? || field.GpuPowerMeanWatts? || field.GpuPowerPeakWatts?
  }

  predicate IsRlField(field: Field)
    ensures IsRlField(field) <==> Owner(field) == Some(Rl)
  {
    field.TrainingSteps? || field.FinalObservedStep? || field.TrainingSps? || field.EvaluationEpisodes?
    || field.EvaluationReturnMean? || field.EvaluationReturnStddev? || field.CheckpointBytes?
    || field.CheckpointSha256?
  }

  /** The source whose metric a field is. */
  function Owner(field: Field): Option<Source>
  {
    match field
    case RunId => None
    case Provider | ModelName | ProviderBase => Some(Profile)
    case Status | WallSeconds | OperationCount | CompletedOperations | StageCheckpointCount | AttemptCount | RetryCount
      | StageSequenceVerified => Some(Factory)
    case ResponseCount | TotalTokens | InputTokens | CachedInputTokens | CacheWriteInputTokens | OutputTokens
      | ReasoningOutputTokens | ToolStartedCount | ContextCompactedCount => Some(Model)
    case CudaOptimizerStepPassed | FocusedTestCount | FocusedTestSeconds | PpoConfiguredSteps | PpoCompletedSteps
      | PpoLastLoggedStep | PpoCompletionVerified | PpoFinalSps | PpoLastTrainingReturn => Some(Issue)
    case PodCount | PendingPods | RunningPods | SucceededPods | FailedPods | UnknownPods | PodRestartCount
      | RuntimeClassPods | IsolatedWorkspacePods => Some(Kubernetes)
    case GpuCount | SampleCount | GpuSampleCount | GpuSeconds | GpuSampleSpanSeconds | GpuUtilizationMeanPct
      | GpuUtilizationMaxPct | GpuMemoryMeanMib | GpuMemoryPeakMib | GpuPowerMeanWatts | GpuPowerPeakWatts => Some(Gpu)
    case TrainingSteps | FinalObservedStep | TrainingSps | EvaluationEpisodes | EvaluationReturnMean
      | EvaluationReturnStddev | CheckpointBytes | CheckpointSha256 => Some(Rl)
  }

  /** The columns read as whole numbers. */
  predicate IsWhole(field: Field)
  {
    match field
    case RunId | Provider | ModelName | ProviderBase | Status | WallSeconds | FocusedTestSeconds | PpoLastTrainingReturn
      | SampleCount | GpuSeconds | GpuSampleSpanSeconds | GpuUtilizationMeanPct | GpuUtilizationMaxPct
      | GpuMemoryMeanMib | GpuMemoryPeakMib | GpuPowerMeanWatts | GpuPowerPeakWatts | EvaluationReturnMean
      | EvaluationReturnStddev | CheckpointSha256 => false
    case _ => true
  }

  predicate IsText(field: Field)
  {
    field.RunId? || field.Provider? || field.ModelName? || field.ProviderBase? || field.Status? || field.CheckpointSha256?
  }

  predicate MayBeNegative(field: Field)
  {
    field.EvaluationReturnMean? || field.PpoLastTrainingReturn?
  }

  predicate IsPercent(field: Field)
  {
    field.GpuUtilizationMeanPct? || field.GpuUtilizationMaxPct?
  }

  lemma ProfileListed(field: Field)
    ensures field in Required(Profile) || field in Optional(Profile) <==> IsProfileField(field)
  {
    hide Owner;
  }

  lemma FactoryListed(field: Field)
    ensures field in Required(Factory) || field in Optional(Factory) <==> IsFactoryField(field)
  {
    hide Owner;
  }

  lemma ModelListed(field: Field)
    ensures field in Required(Model) || field in Optional(Model) <==> IsModelField(field)
  {
    hide Owner;
  }

  lemma IssueListed(field: Field)
    ensures field in Required(Issue) || field in Optional(Issue) <==> IsIssueField(field)
  {
    hide Owner;
  }

  lemma KubernetesListed(field: Field)
    ensures field in Required(Kubernetes) || field in Optional(Kubernetes) <==> IsKubernetesField(field)
  {
    hide Owner;
  }

  lemma GpuRequired(field: Field)
    ensures field in Required(Gpu) <==>
              || field.GpuCount? || field.SampleCount? || field.GpuSeconds? || field.GpuSampleSpanSeconds?
              || field.GpuUtilizationMeanPct? || field.GpuUtilizationMaxPct?
  {
  }

  lemma GpuOptional(field: Field)
    ensures field in Optional(Gpu) <==>
              field.GpuMemoryMeanMib? || field.GpuMemoryPeakMib? || field.GpuPowerMeanWatts? || field.GpuPowerPeakWatts?
  {
  }

  lemma GpuListed(field: Field)
    ensures field in Required(Gpu) || field in Optional(Gpu) <==> IsGpuField(field) && !field.GpuSampleCount?
  {
    hide Owner, Required, Optional;
    GpuRequired(field);
    GpuOptional(field);
  }

  lemma RlListed(field: Field)
    ensures field in Required(Rl) || field in Optional(Rl) <==> IsRlField(field)
  {
    hide Owner;
  }

  /** A metric and its column belong to the same source. */
  lemma ColumnOwned(field: Field)
    ensures Owner(Column(field)) == Owner(field)
  {
  }

  /** A source's metrics are exactly what it owns, a sample count under the name the source gives it. */
  lemma MetricsListed(source: Source, field: Field)
    ensures field in Required(source) || field in Optional(source)
       <==> Owner(field) == Some(source) && !field.GpuSampleCount?
  {
    hide Required, Optional, Owner, IsProfileField, IsFactoryField, IsModelField, IsIssueField, IsKubernetesField,
         IsGpuField, IsRlField;
    NoSampleElsewhere(field);
    match source {
      case Profile => ProfileListed(field);
      case Factory => FactoryListed(field);
      case Model => ModelListed(field);
      case Issue => IssueListed(field);
      case Kubernetes => KubernetesListed(field);
      case Gpu => GpuListed(field);
      case Rl => RlListed(field);
    }
  }

  lemma NoSampleElsewhere(field: Field)
    ensures field.GpuSampleCount? ==> Owner(field) == Some(Gpu)
  {
  }

  /** So they belong to it alone. */
  lemma MetricsAreOwned(source: Source, field: Field)
    requires field in Required(source) || field in Optional(source)
    ensures Owner(field) == Some(source) && Owner(Column(field)) == Some(source)
  {
    hide Required, Optional, Owner, Column;
    ColumnOwned(field);
    MetricsListed(source, field);
  }

  /** Which columns are counts, source by source. */
  lemma WholeMeans(field: Field)
    ensures IsWhole(field) <==>
              || Owner(field) == Some(Model) || Owner(field) == Some(Kubernetes)
              || (Owner(field) == Some(Factory) && field !in {Status, WallSeconds})
              || (Owner(field) == Some(Issue) && field !in {FocusedTestSeconds, PpoLastTrainingReturn})
              || field in {GpuCount, GpuSampleCount}
              || (Owner(field) == Some(Rl)
                  && field !in {EvaluationReturnMean, EvaluationReturnStddev, CheckpointSha256})
  {
  }
}
