/** Reading the metrics table back, with every check made again on what the cells say. */
module MetricsReader {
  import opened Common
  import opened MetricsFields
  import opened MetricsNumbers
  import opened MetricsTable

  const GROUPS := [Factory, Model, Issue, Kubernetes, Gpu, Rl]

  predicate Present(row: Row, column: Field)
  {
    column in row.cells && row.cells[column] != ""
  }

  predicate Metric(source: Source, field: Field)
  {
    field in Required(source) || field in Optional(source)
  }

  /** Some column of the source is filled. */
  predicate AnyPresent(row: Row, source: Source)
  {
    || (exists f :: f in Required(source) && Present(row, Column(f)))
    || (exists f :: f in Optional(source) && Present(row, Column(f)))
  }

  /** The sources with columns filled, in table order. */
  function PresentSources(row: Row, n: nat): seq<Source>
    requires n <= |GROUPS|
  {
    if n == 0 then []
    else PresentSources(row, n - 1) + if AnyPresent(row, GROUPS[n - 1]) then [GROUPS[n - 1]] else []
  }

  predicate InPairs(row: Row)
  {
    && (Present(row, GpuMemoryMeanMib) <==> Present(row, GpuMemoryPeakMib))
    && (Present(row, GpuPowerMeanWatts) <==> Present(row, GpuPowerPeakWatts))
  }

  /** A source's columns are all filled or all empty, optional ones in pairs, and every filled one can be read. */
  predicate GroupFits(row: Row, source: Source, printer: Printer)
  {
    AnyPresent(row, source) ==>
      && (forall f :: f in Required(source) ==>
            Present(row, Column(f)) && ReadCell(Column(f), row.cells[Column(f)], printer).Some?)
      && (forall f :: f in Optional(source) && Present(row, Column(f)) ==>
            ReadCell(Column(f), row.cells[Column(f)], printer).Some?)
      && (source.Gpu? ==> InPairs(row))
  }

  /** The values of the filled columns. */
  function Values(row: Row, printer: Printer): Metrics
  {
    map c | c in row.cells && Reads(row, c, printer) :: ReadCell(c, row.cells[c], printer).value
  }

  predicate Reads(row: Row, c: Field, printer: Printer)
  {
    Present(row, c) && Owner(c) != Some(Profile) && ReadCell(c, row.cells[c], printer).Some?
  }

  predicate ProfileIs(row: Row, manifest: Manifest)
  {
    forall f :: f in Required(Profile) ==> f in manifest.profile && f in row.cells && row.cells[f] == manifest.profile[f]
  }

  /** The checks on a row's values. */
  predicate ValuesFit(run: Run, values: Metrics, manifest: Manifest)
  {
    if IsIssueRun(run) then FactoryFits(values) && ModelFits(values) && IssueMatches(values, run, manifest)
    else KubernetesFits(values) && GpuFits(values, GpuSampleCount) && RlMatches(values, run, manifest)
  }

  /** What the checks on an issue run's values come to. */
  lemma IssueValuesMean(run: Run, values: Metrics, manifest: Manifest)
    requires run == Cleanrl488 || run == Cleanrl562
    ensures ValuesFit(run, values, manifest) <==>
              && N(values, OperationCount) == 4.0 && N(values, CompletedOperations) == 4.0
              && N(values, StageCheckpointCount) == 4.0 && N(values, StageSequenceVerified) == 1.0
              && N(values, RetryCount) <= N(values, AttemptCount)
              && N(values, ResponseCount) >= 1.0
              && N(values, TotalTokens) == N(values, InputTokens) + N(values, OutputTokens)
              && N(values, CachedInputTokens) <= N(values, InputTokens)
              && N(values, ReasoningOutputTokens) <= N(values, OutputTokens)
              && run in manifest.jobs && manifest.jobs[run].rollout > 0
              && var job := manifest.jobs[run];
                 var completed := (job.steps / job.rollout * job.rollout) as real;
                 && N(values, CudaOptimizerStepPassed) == 1.0 && N(values, PpoCompletionVerified) == 1.0
                 && N(values, FocusedTestCount) == job.tests as real
                 && N(values, PpoConfiguredSteps) == job.steps as real && N(values, PpoCompletedSteps) == completed
                 && 1.0 <= N(values, PpoLastLoggedStep) <= completed
  {
  }

  /** What the checks on a training run's values come to. */
  lemma TrainingValuesMean(run: Run, values: Metrics, manifest: Manifest)
    requires run == C51Gb10 || run == C51A100
    ensures ValuesFit(run, values, manifest) <==>
              && N(values, PendingPods) + N(values, RunningPods) + N(values, SucceededPods) + N(values, FailedPods)
                 + N(values, UnknownPods) == N(values, PodCount)
              && N(values, RuntimeClassPods) <= N(values, PodCount)
              && N(values, IsolatedWorkspacePods) == N(values, PodCount)
              && N(values, GpuCount) >= 1.0 && N(values, GpuSampleCount) == 120.0 * N(values, GpuCount)
              && N(values, GpuSeconds) == 120.0 * N(values, GpuCount)
              && 115.0 <= N(values, GpuSampleSpanSeconds) <= 150.0
              && N(values, GpuUtilizationMeanPct) <= N(values, GpuUtilizationMaxPct)
              && (GpuMemoryPeakMib in values ==> N(values, GpuMemoryMeanMib) <= N(values, GpuMemoryPeakMib))
              && (GpuPowerPeakWatts in values ==> N(values, GpuPowerMeanWatts) <= N(values, GpuPowerPeakWatts))
              && run in manifest.runs
              && N(values, TrainingSteps) == manifest.runs[run].steps as real
              && N(values, EvaluationEpisodes) == manifest.runs[run].episodes as real
              && N(values, FinalObservedStep) < manifest.runs[run].steps as real
              && N(values, FinalObservedStep) >= (manifest.runs[run].steps - 500) as real
              && N(values, CheckpointBytes) >= 1.0
  {
  }

  datatype ReadRow = ReadRow(run: Run, sources: seq<Source>, values: Metrics)

  /** When the reader takes a row. */
  predicate RowFits(row: Row, manifest: Manifest, printer: Printer)
  {
    && ProfileIs(row, manifest)
    && (forall s :: s in GROUPS ==> GroupFits(row, s, printer))
    && PresentSources(row, |GROUPS|) == Sources(row.run)
    && ValuesFit(row.run, Values(row, printer), manifest)
  }

  /** Reading a table: every row must fit, no run twice, and all of the manifest's runs unless there are no rows. */
  method ReadTable(rows: seq<Row>, manifest: Manifest, printer: Printer) returns (table: Option<seq<ReadRow>>)
    ensures table.Some? <==>
              && ListsRuns(manifest)
              && (forall k :: 0 <= k < |rows| ==> RowFits(rows[k], manifest, printer))
              && (forall j, k :: 0 <= j < k < |rows| ==> rows[j].run != rows[k].run)
              && (rows != [] ==> forall run :: run in Order(manifest) ==> exists k :: 0 <= k < |rows| && rows[k].run == run)
    ensures table.Some? ==> |table.value| == |rows| && forall k :: 0 <= k < |rows| ==>
              table.value[k] == ReadRow(rows[k].run, Sources(rows[k].run), Values(rows[k], printer))
  {
    hide RowFits, Sources, Values, ListsRuns, Order;
    if !ListsRuns(manifest) {
      return None;
    }
    var read: seq<ReadRow>, seen: set<Run> := [], {};
    for k := 0 to |rows|
      invariant |read| == k && seen == set j | 0 <= j < k :: rows[j].run
      invariant forall j :: 0 <= j < k ==> RowFits(rows[j], manifest, printer)
      invariant forall i, j :: 0 <= i < j < k ==> rows[i].run != rows[j].run
      invariant forall j :: 0 <= j < k ==> read[j] == ReadRow(rows[j].run, Sources(rows[j].run), Values(rows[j], printer))
    {
      if rows[k].run in seen || !RowFits(rows[k], manifest, printer) {
        return None;
      }
      seen := seen + {rows[k].run};
      read := read + [ReadRow(rows[k].run, Sources(rows[k].run), Values(rows[k], printer))];
    }
    if rows != [] && exists run :: run in Order(manifest) && run !in seen {
      return None;
    }
    return Some(read);
  }
}
