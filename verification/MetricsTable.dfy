/**
 The metrics table: observations merged into one row a run, and the rows read back by a reader that checks
 them again.
 */
module MetricsTable {
  import opened Common
  import opened MetricsFields
  import opened MetricsNumbers

  datatype Run = Cleanrl488 | Cleanrl562 | C51Gb10 | C51A100

  const RUNS := [Cleanrl488, Cleanrl562, C51Gb10, C51A100]

  datatype IssueJob = IssueJob(steps: int, rollout: int, tests: int)
  datatype RlRun = RlRun(steps: int, episodes: int)

  /** What the checks read of the manifest: its issue jobs and training runs as listed, and what is configured. */
  datatype Manifest = Manifest(issues: seq<Run>, trainings: seq<Run>, jobs: map<Run, IssueJob>, runs: map<Run, RlRun>,
                               profile: map<Field, string>)

  /** The runs of a manifest, in its order. */
  function Order(manifest: Manifest): seq<Run>
  {
    manifest.issues + manifest.trainings
  }

  /** The manifest lists each run once, under the heading it belongs to. */
  predicate ListsRuns(manifest: Manifest)
  {
    && (forall i :: 0 <= i < |manifest.issues| ==> IsIssueRun(manifest.issues[i]))
    && (forall i :: 0 <= i < |manifest.trainings| ==> !IsIssueRun(manifest.trainings[i]))
    && (forall j, k :: 0 <= j < k < |Order(manifest)| ==> Order(manifest)[j] != Order(manifest)[k])
    && (forall i :: 0 <= i < |RUNS| ==> RUNS[i] in Order(manifest))
  }

  type Metrics = map<Field, Value>

  datatype Observation = Observation(run: Run, source: Source, metrics: Metrics)

  /** A number of these metrics; zero when it is missing. */
  function N(metrics: Metrics, field: Field): real
  {
    if field in metrics then Num(metrics[field]) else 0.0
  }

  // ---------------------------------------------------------------------------------------------
  // Checking an observation
  // ---------------------------------------------------------------------------------------------

  predicate Both(metrics: Metrics, a: Field, b: Field)
  {
    a in metrics <==> b in metrics
  }

  predicate KeysFit(source: Source, metrics: Metrics)
  {
    && (forall f :: f in Required(source) ==> f in metrics)
    && (forall f :: f in metrics ==> f in Required(source) || f in Optional(source))
    && (source.Gpu? ==> Both(metrics, GpuMemoryMeanMib, GpuMemoryPeakMib) && Both(metrics, GpuPowerMeanWatts, GpuPowerPeakWatts))
  }

  predicate ProfileFits(metrics: Metrics, manifest: Manifest)
  {
    forall f :: f in metrics ==> f in manifest.profile && metrics[f] == Text(manifest.profile[f])
  }

  predicate FactoryFits(m: Metrics)
  {
    && N(m, OperationCount) == 4.0 && N(m, CompletedOperations) == 4.0 && N(m, StageCheckpointCount) == 4.0
    && N(m, StageSequenceVerified) == 1.0 && N(m, RetryCount) <= N(m, AttemptCount)
  }

  predicate ModelFits(m: Metrics)
  {
    && N(m, ResponseCount) >= 1.0 && N(m, TotalTokens) == N(m, InputTokens) + N(m, OutputTokens)
    && N(m, CachedInputTokens) <= N(m, InputTokens) && N(m, ReasoningOutputTokens) <= N(m, OutputTokens)
  }

  predicate IssueFits(m: Metrics, run: Run, manifest: Manifest)
  {
    && N(m, FocusedTestCount) >= 1.0 && N(m, PpoConfiguredSteps) >= 1.0 && N(m, PpoCompletedSteps) >= 1.0
    && N(m, PpoFinalSps) >= 1.0
    && IssueMatches(m, run, manifest)
  }

  /** The issue metrics prove the configured rollout. */
  predicate IssueMatches(m: Metrics, run: Run, manifest: Manifest)
  {
    && run in manifest.jobs && manifest.jobs[run].rollout > 0
    && var job := manifest.jobs[run];
       var completed := (job.steps / job.rollout * job.rollout) as real;
       && N(m, CudaOptimizerStepPassed) == 1.0 && N(m, FocusedTestCount) == job.tests as real
       && N(m, PpoConfiguredSteps) == job.steps as real && N(m, PpoCompletedSteps) == completed
       && N(m, PpoCompletionVerified) == 1.0 && 1.0 <= N(m, PpoLastLoggedStep) <= completed
  }

  predicate KubernetesFits(m: Metrics)
  {
    && N(m, PendingPods) + N(m, RunningPods) + N(m, SucceededPods) + N(m, FailedPods) + N(m, UnknownPods) == N(m, PodCount)
    && N(m, RuntimeClassPods) <= N(m, PodCount) && N(m, IsolatedWorkspacePods) == N(m, PodCount)
  }

  /** `samples` is the column the sample count stands in. */
  predicate GpuFits(m: Metrics, samples: Field)
  {
    && N(m, GpuCount) >= 1.0 && N(m, samples) == 120.0 * N(m, GpuCount) && N(m, GpuSeconds) == 120.0 * N(m, GpuCount)
    && 115.0 <= N(m, GpuSampleSpanSeconds) <= 150.0
    && N(m, GpuUtilizationMeanPct) <= N(m, GpuUtilizationMaxPct)
    && (GpuMemoryPeakMib in m ==> N(m, GpuMemoryMeanMib) <= N(m, GpuMemoryPeakMib))
    && (GpuPowerPeakWatts in m ==> N(m, GpuPowerMeanWatts) <= N(m, GpuPowerPeakWatts))
  }

  predicate RlFits(m: Metrics, run: Run, manifest: Manifest)
  {
    && N(m, TrainingSteps) >= 1.0 && N(m, FinalObservedStep) >= 1.0 && N(m, TrainingSps) >= 1.0
    && N(m, EvaluationEpisodes) >= 1.0
    && RlMatches(m, run, manifest)
  }

  /** The training metrics prove the configured run. */
  predicate RlMatches(m: Metrics, run: Run, manifest: Manifest)
  {
    && run in manifest.runs
    && var expected := manifest.runs[run];
       && N(m, TrainingSteps) == expected.steps as real && N(m, EvaluationEpisodes) == expected.episodes as real
       && (expected.steps - 500) as real <= N(m, FinalObservedStep) < expected.steps as real
       && N(m, CheckpointBytes) >= 1.0
  }

  predicate SourceFits(o: Observation, manifest: Manifest)
  {
    match o.source
    case Profile => ProfileFits(o.metrics, manifest)
    case Factory => FactoryFits(o.metrics)
    case Model => ModelFits(o.metrics)
    case Issue => IssueFits(o.metrics, o.run, manifest)
    case Kubernetes => KubernetesFits(o.metrics)
    case Gpu => GpuFits(o.metrics, SampleCount)
    case Rl => RlFits(o.metrics, o.run, manifest)
  }

  /** What the checks on an observation come to, source by source. */
  lemma SourceFitsMeans(o: Observation, manifest: Manifest)
    ensures o.source == Profile ==>
              (SourceFits(o, manifest) <==> forall f :: f in o.metrics ==>
                 f in manifest.profile && o.metrics[f] == Text(manifest.profile[f]))
    ensures o.source == Factory ==>
              (SourceFits(o, manifest) <==>
                 && N(o.metrics, OperationCount) == 4.0 && N(o.metrics, CompletedOperations) == 4.0
                 && N(o.metrics, StageCheckpointCount) == 4.0 && N(o.metrics, StageSequenceVerified) == 1.0
                 && N(o.metrics, RetryCount) <= N(o.metrics, AttemptCount))
    ensures o.source == Model ==>
              (SourceFits(o, manifest) <==>
                 && N(o.metrics, ResponseCount) >= 1.0
                 && N(o.metrics, TotalTokens) == N(o.metrics, InputTokens) + N(o.metrics, OutputTokens)
                 && N(o.metrics, CachedInputTokens) <= N(o.metrics, InputTokens)
                 && N(o.metrics, ReasoningOutputTokens) <= N(o.metrics, OutputTokens))
    ensures o.source == Issue ==>
              (SourceFits(o, manifest) <==>
                 && N(o.metrics, FocusedTestCount) >= 1.0 && N(o.metrics, PpoConfiguredSteps) >= 1.0
                 && N(o.metrics, PpoCompletedSteps) >= 1.0 && N(o.metrics, PpoFinalSps) >= 1.0
                 && IssueMatches(o.metrics, o.run, manifest))
    ensures o.source == Kubernetes ==> (SourceFits(o, manifest) <==> KubernetesFits(o.metrics))
    ensures o.source == Gpu ==> (SourceFits(o, manifest) <==> GpuFits(o.metrics, SampleCount))
    ensures o.source == Rl ==>
              (SourceFits(o, manifest) <==>
                 && N(o.metrics, TrainingSteps) >= 1.0 && N(o.metrics, FinalObservedStep) >= 1.0
                 && N(o.metrics, TrainingSps) >= 1.0 && N(o.metrics, EvaluationEpisodes) >= 1.0
                 && RlMatches(o.metrics, o.run, manifest))
  {
    hide N, IssueMatches, RlMatches, GpuFits, KubernetesFits;
  }

  /** An observation the merge takes. */
  predicate Valid(o: Observation, manifest: Manifest)
  {
    && KeysFit(o.source, o.metrics)
    && (forall f :: f in o.metrics ==> Fits(f, o.metrics[f]))
    && SourceFits(o, manifest)
  }

  // ---------------------------------------------------------------------------------------------
  // Merging
  // ---------------------------------------------------------------------------------------------

  predicate IsIssueRun(run: Run)
  {
    run.Cleanrl488? || run.Cleanrl562?
  }

  /** The sources whose columns a run's row has, in table order. */
  function Sources(run: Run): seq<Source>
  {
    if IsIssueRun(run) then [Factory, Model, Issue] else [Kubernetes, Gpu, Rl]
  }

  predicate Expected(run: Run, source: Source)
  {
    source == Profile || source in Sources(run)
  }

  ghost predicate Distinct(observations: seq<Observation>)
  {
    forall i, j :: 0 <= i < j < |observations| ==>
      observations[i].run != observations[j].run || observations[i].source != observations[j].source
  }

  ghost predicate Observed(observations: seq<Observation>, run: Run, source: Source)
  {
    exists o :: o in observations && o.run == run && o.source == source
  }

  /** Observations that make a table: all valid, and for every run exactly its sources, once each. */
  ghost predicate Mergeable(observations: seq<Observation>, manifest: Manifest)
  {
    && (forall o :: o in observations ==> Valid(o, manifest))
    && Distinct(observations)
    && (forall run, source :: Observed(observations, run, source) <==> Expected(run, source))
  }

  datatype Row = Row(run: Run, cells: map<Field, string>)

  /** Some observation of the run says this of the column. */
  ghost predicate Says(observations: seq<Observation>, run: Run, printer: Printer, column: Field, cell: string)
  {
    exists o, f ::
      o in observations && o.run == run && f in o.metrics && Column(f) == column && Format(o.metrics[f], printer) == cell
  }

  /** The row holds what the observations of its run say, all of it and nothing else. */
  ghost predicate RowOf(row: Row, observations: seq<Observation>, run: Run, printer: Printer)
  {
    && row.run == run
    && (forall o, f {:trigger f in o.metrics, o in observations} :: o in observations && o.run == run && f in o.metrics ==>
          Column(f) in row.cells && row.cells[Column(f)] == Format(o.metrics[f], printer))
    && forall column :: column in row.cells ==> Says(observations, run, printer, column, row.cells[column])
  }

  /** What one order of the observations puts into a row, every other puts there, too. */
  lemma CellIsSame(a: Row, b: Row, observations: seq<Observation>, others: seq<Observation>, run: Run, printer: Printer,
                   column: Field)
    requires multiset(observations) == multiset(others)
    requires RowOf(a, observations, run, printer) && RowOf(b, others, run, printer) && column in a.cells
    ensures column in b.cells && b.cells[column] == a.cells[column]
  {
    hide Column, Format;
    assert Says(observations, run, printer, column, a.cells[column]);
    var o, f :| o in observations && o.run == run && f in o.metrics && Column(f) == column
                && Format(o.metrics[f], printer) == a.cells[column];
    assert o in multiset(others);
    assert o in others;
  }

  /** The order of the observations is irrelevant: what they say of a run is one row. */
  lemma OneRow(a: Row, b: Row, observations: seq<Observation>, others: seq<Observation>, run: Run, printer: Printer)
    requires multiset(observations) == multiset(others)
    requires RowOf(a, observations, run, printer) && RowOf(b, others, run, printer)
    ensures a == b
  {
    hide Says, Column, Format;
    forall column | column in a.cells ensures column in b.cells && b.cells[column] == a.cells[column] {
      CellIsSame(a, b, observations, others, run, printer, column);
    }
    forall column | column in b.cells ensures column in a.cells {
      CellIsSame(b, a, others, observations, run, printer, column);
    }
  }

  lemma {:induction false} DistinctPermuted(a: seq<Observation>, b: seq<Observation>)
    requires multiset(a) == multiset(b) && Distinct(a)
    ensures Distinct(b)
    decreases |a|
  {
    if a == [] {
      assert multiset(b) == multiset{} && b == [];
    } else {
      var fewer := a[..|a| - 1];
      var j := SetAsideLast(a, b);
      DistinctPermuted(fewer, Without(b, j));
      var rest := Without(b, j);
      forall o | o in rest ensures o.run != b[j].run || o.source != b[j].source {
        assert o in multiset(rest) && o in multiset(fewer);
      }
      forall i, k | 0 <= i < k < |b| ensures b[i].run != b[k].run || b[i].source != b[k].source {
        if i == j {
          assert rest[k - 1] == b[k];
        } else if k == j {
          assert rest[i] == b[i];
        } else {
          assert rest[if i < j then i else i - 1] == b[i] && rest[if k < j then k else k - 1] == b[k];
        }
      }
    }
  }

  lemma MergeableInAnyOrder(a: seq<Observation>, b: seq<Observation>, manifest: Manifest)
    requires multiset(a) == multiset(b) && Mergeable(a, manifest)
    ensures Mergeable(b, manifest)
  {
    hide Valid, Distinct, Expected;
    DistinctPermuted(a, b);
    forall o ensures o in a <==> o in b {
      assert o in a <==> o in multiset(a);
      assert o in b <==> o in multiset(b);
    }
    forall run, source ensures Observed(a, run, source) <==> Observed(b, run, source) {
    }
  }
}
