/** A merged table is accepted by the reader, which gets back the values that were observed. */
module MetricsRoundTrip {
  import opened Common
  import opened MetricsFields
  import opened MetricsNumbers
  import opened MetricsTable
  import opened MetricsMerge
  import opened MetricsReader

  /** All numbers are printed exactly. */
  ghost predicate AllExact(observations: seq<Observation>, printer: Printer)
  {
    forall o, f {:trigger o in observations, f in o.metrics} :: o in observations && f in o.metrics ==>
      Exact(f, o.metrics[f], printer)
  }

  /** A merged row, with everything it was merged from. */
  ghost predicate Merged(row: Row, observations: seq<Observation>, manifest: Manifest, printer: Printer)
  {
    Mergeable(observations, manifest) && RowOf(row, observations, row.run, printer) && AllExact(observations, printer)
  }

  /** Observations of the same run and source are the same. */
  lemma Unique(observations: seq<Observation>, a: Observation, b: Observation)
    requires Distinct(observations) && a in observations && b in observations && a.run == b.run && a.source == b.source
    ensures a == b
  {
    var i :| 0 <= i < |observations| && observations[i] == a;
    var j :| 0 <= j < |observations| && observations[j] == b;
    assert i == j;
  }

  lemma MetricOwned(source: Source, metrics: Metrics, f: Field)
    requires KeysFit(source, metrics) && f in metrics
    ensures Metric(source, f) && Owner(f) == Some(source) && Owner(Column(f)) == Some(source) && !f.GpuSampleCount?
  {
    hide Required, Optional, Owner, Column;
    MetricsAreOwned(source, f);
    KeysLack(source, metrics);
  }

  /** The column of an observed metric is filled, with the observed value. */
  lemma CellFilled(row: Row, observations: seq<Observation>, manifest: Manifest, printer: Printer, o: Observation, f: Field)
    requires Merged(row, observations, manifest, printer) && o in observations && o.run == row.run && f in o.metrics
    ensures Column(f) in row.cells && row.cells[Column(f)] == Format(o.metrics[f], printer)
    ensures o.source != Profile ==>
              Present(row, Column(f)) && Reads(row, Column(f), printer)
              && Same(ReadCell(Column(f), row.cells[Column(f)], printer).value, o.metrics[f])
  {
    hide Owner, Column, Format, ReadCell, Exact, Fits, KeysFit, SourceFits, Distinct, Observed, Expected, Same;
    assert Valid(o, manifest);
    MetricOwned(o.source, o.metrics, f);
    if o.source != Profile {
      CellReads(f, o.metrics[f], printer);
    }
  }

  /** A filled column comes from the one observation of its owner. */
  lemma FilledBy(row: Row, observations: seq<Observation>, manifest: Manifest, printer: Printer, c: Field)
      returns (o: Observation, f: Field)
    requires Merged(row, observations, manifest, printer) && c in row.cells
    ensures o in observations && o.run == row.run && f in o.metrics && Column(f) == c && Owner(c) == Some(o.source)
  {
    hide Owner, Column, Format, Fits, KeysFit, SourceFits, Distinct, Observed, Expected, AllExact;
    assert Says(observations, row.run, printer, c, row.cells[c]);
    o, f :| o in observations && o.run == row.run && f in o.metrics && Column(f) == c
            && Format(o.metrics[f], printer) == row.cells[c];
    assert Valid(o, manifest);
    MetricOwned(o.source, o.metrics, f);
  }

  /** For a source's own metrics: the column is filled exactly when the metric was observed. */
  lemma FilledExactly(row: Row, observations: seq<Observation>, manifest: Manifest, printer: Printer, o: Observation,
                      f: Field)
    requires Merged(row, observations, manifest, printer) && o in observations && o.run == row.run
    requires o.source != Profile && Metric(o.source, f)
    ensures Present(row, Column(f)) <==> f in o.metrics
  {
    hide Owner, Column, Format, Fits, KeysFit, Valid, Required, Optional, Reads, ReadCell, Same;
    MetricsAreOwned(o.source, f);
    if f in o.metrics {
      CellFilled(row, observations, manifest, printer, o, f);
    } else if Column(f) in row.cells {
      var p, g := FilledBy(row, observations, manifest, printer, Column(f));
      Unique(observations, o, p);
      assert Valid(o, manifest);
      NotTheColumn(o, manifest, f, g);
    }
  }

  lemma NotTheColumn(o: Observation, manifest: Manifest, f: Field, g: Field)
    requires Valid(o, manifest) && g in o.metrics && Metric(o.source, f) && Column(f) == Column(g)
    ensures f == g
  {
    hide Owner, Column, SourceFits, Fits;
    MetricOwned(o.source, o.metrics, g);
    NoSampleColumn(o.source, f);
    ColumnsDiffer(f, g);
  }

  lemma NoSampleColumn(source: Source, f: Field)
    requires Metric(source, f)
    ensures !f.GpuSampleCount?
  {
  }

  // ---------------------------------------------------------------------------------------------
  // The groups of a merged row
  // ---------------------------------------------------------------------------------------------

  lemma TheObservation(observations: seq<Observation>, manifest: Manifest, run: Run, source: Source) returns (o: Observation)
    requires Mergeable(observations, manifest) && Expected(run, source)
    ensures o in observations && o.run == run && o.source == source && Valid(o, manifest)
  {
    hide Valid, Distinct, Expected;
    assert Observed(observations, run, source);
    o :| o in observations && o.run == run && o.source == source;
  }

  lemma SomeRequired(source: Source)
    ensures Required(source) != []
  {
  }

  lemma PresentIsMetric(row: Row, source: Source) returns (f: Field)
    requires AnyPresent(row, source)
    ensures Metric(source, f) && Present(row, Column(f))
  {
    hide Required, Optional, Present, Column;
    if g :| g in Required(source) && Present(row, Column(g)) {
      f := g;
    } else {
      f :| f in Optional(source) && Present(row, Column(f));
    }
  }

  lemma GroupPresent(row: Row, observations: seq<Observation>, manifest: Manifest, printer: Printer, source: Source)
    requires Merged(row, observations, manifest, printer) && source != Profile
    ensures AnyPresent(row, source) <==> source in Sources(row.run)
  {
    hide Owner, Column, Format, Required, Optional, Sources, Valid, RowOf, AllExact, Distinct;
    if source in Sources(row.run) {
      var o := TheObservation(observations, manifest, row.run, source);
      SomeRequired(source);
      var f := Required(source)[0];
      RequiredObserved(o, manifest, f);
      FilledExactly(row, observations, manifest, printer, o, f);
    }
    if AnyPresent(row, source) {
      var f := PresentIsMetric(row, source);
      var o, g := FilledBy(row, observations, manifest, printer, Column(f));
      MetricsAreOwned(source, f);
      assert Observed(observations, row.run, source);
    }
  }

  lemma RequiredObserved(o: Observation, manifest: Manifest, f: Field)
    requires Valid(o, manifest) && f in Required(o.source)
    ensures f in o.metrics
  {
    hide SourceFits, Fits;
  }

  lemma GroupIsFine(row: Row, observations: seq<Observation>, manifest: Manifest, printer: Printer, source: Source)
    requires Merged(row, observations, manifest, printer) && source != Profile
    ensures GroupFits(row, source, printer)
  {
    hide Owner, Column, Format, Required, Optional, Sources, Valid, RowOf, AllExact, Distinct, AnyPresent, ReadCell, Same,
         Mergeable, InPairs;
    if AnyPresent(row, source) {
      GroupPresent(row, observations, manifest, printer, source);
      var o := TheObservation(observations, manifest, row.run, source);
      forall f | f in Required(source)
        ensures Present(row, Column(f)) && ReadCell(Column(f), row.cells[Column(f)], printer).Some?
      {
        RequiredObserved(o, manifest, f);
        CellFilled(row, observations, manifest, printer, o, f);
      }
      forall f | f in Optional(source) && Present(row, Column(f))
        ensures ReadCell(Column(f), row.cells[Column(f)], printer).Some?
      {
        FilledExactly(row, observations, manifest, printer, o, f);
        CellFilled(row, observations, manifest, printer, o, f);
      }
      if source.Gpu? {
        PairsFilled(row, observations, manifest, printer, o);
      }
    }
  }

  lemma PairsFilled(row: Row, observations: seq<Observation>, manifest: Manifest, printer: Printer, o: Observation)
    requires Merged(row, observations, manifest, printer) && o in observations && o.run == row.run && o.source == Gpu
    ensures InPairs(row)
  {
    hide Owner, Format, Required, RowOf, AllExact, Distinct, ReadCell, Same, Present, SourceFits, Fits;
    assert Valid(o, manifest);
    assert [GpuMemoryMeanMib, GpuMemoryPeakMib, GpuPowerMeanWatts, GpuPowerPeakWatts] == Optional(Gpu);
    FilledExactly(row, observations, manifest, printer, o, GpuMemoryMeanMib);
    FilledExactly(row, observations, manifest, printer, o, GpuMemoryPeakMib);
    FilledExactly(row, observations, manifest, printer, o, GpuPowerMeanWatts);
    FilledExactly(row, observations, manifest, printer, o, GpuPowerPeakWatts);
  }

  lemma InSources(run: Run, source: Source)
    ensures source in Sources(run) <==>
              if IsIssueRun(run) then source.Factory? || source.Model? || source.Issue?
              else source.Kubernetes? || source.Gpu? || source.Rl?
  {
    var sources := Sources(run);
    assert |sources| == 3 && (source in sources <==> sources[0] == source || sources[1] == source || sources[2] == source);
  }

  lemma SourcesInOrder(row: Row)
    requires var issue := IsIssueRun(row.run);
             && AnyPresent(row, Factory) == AnyPresent(row, Model) == AnyPresent(row, Issue) == issue
             && AnyPresent(row, Kubernetes) == AnyPresent(row, Gpu) == AnyPresent(row, Rl) == !issue
    ensures PresentSources(row, |GROUPS|) == Sources(row.run)
  {
    hide AnyPresent, IsIssueRun;
    var issue := IsIssueRun(row.run);
    assert PresentSources(row, 1) == if issue then [Factory] else [];
    assert PresentSources(row, 2) == if issue then [Factory, Model] else [];
    assert PresentSources(row, 3) == if issue then [Factory, Model, Issue] else [];
    assert PresentSources(row, 4) == if issue then [Factory, Model, Issue] else [Kubernetes];
    assert PresentSources(row, 5) == if issue then [Factory, Model, Issue] else [Kubernetes, Gpu];
  }

  // ---------------------------------------------------------------------------------------------
  // The values of a merged row
  // ---------------------------------------------------------------------------------------------

  /** The values hold an observation's metrics, each in its column. */
  ghost predicate Agree(values: Metrics, metrics: Metrics, source: Source)
  {
    forall f {:trigger N(metrics, f)} :: Metric(source, f) ==>
      N(values, Column(f)) == N(metrics, f) && (Column(f) in values <==> f in metrics)
  }

  lemma ValuesAgree(row: Row, observations: seq<Observation>, manifest: Manifest, printer: Printer, o: Observation)
    requires Merged(row, observations, manifest, printer) && o in observations && o.run == row.run && o.source != Profile
    ensures Agree(Values(row, printer), o.metrics, o.source)
  {
    hide Owner, Column, Format, Required, Optional, Mergeable, RowOf, AllExact, ReadCell, Reads;
    var values := Values(row, printer);
    forall f | Metric(o.source, f)
      ensures N(values, Column(f)) == N(o.metrics, f) && (Column(f) in values <==> f in o.metrics)
    {
      FilledExactly(row, observations, manifest, printer, o, f);
      if f in o.metrics {
        CellFilled(row, observations, manifest, printer, o, f);
      } else {
        NotRead(row, Column(f), printer);
      }
    }
  }

  lemma NotRead(row: Row, c: Field, printer: Printer)
    ensures !Present(row, c) ==> !Reads(row, c, printer)
  {
  }

  lemma FactoryCarries(v: Metrics, m: Metrics)
    requires Agree(v, m, Factory) && FactoryFits(m)
    ensures FactoryFits(v)
  {
    var fields := Required(Factory);
    assert fields[2] == OperationCount && fields[3] == CompletedOperations && fields[4] == StageCheckpointCount;
    assert fields[5] == AttemptCount && fields[6] == RetryCount && fields[7] == StageSequenceVerified;
    hide Required, Optional;
  }

  lemma ModelCarries(v: Metrics, m: Metrics)
    requires Agree(v, m, Model) && ModelFits(m)
    ensures ModelFits(v)
  {
    var fields := Required(Model);
    assert fields[0] == ResponseCount && fields[1] == TotalTokens && fields[2] == InputTokens;
    assert fields[3] == CachedInputTokens && fields[5] == OutputTokens && fields[6] == ReasoningOutputTokens;
  }

  lemma IssueCarries(v: Metrics, m: Metrics, run: Run, manifest: Manifest)
    requires Agree(v, m, Issue) && IssueMatches(m, run, manifest)
    ensures IssueMatches(v, run, manifest)
  {
    var fields := Required(Issue);
    assert fields[0] == CudaOptimizerStepPassed && fields[1] == FocusedTestCount && fields[3] == PpoConfiguredSteps;
    assert fields[4] == PpoCompletedSteps && fields[5] == PpoLastLoggedStep && fields[6] == PpoCompletionVerified;
  }

  lemma KubernetesMetrics()
    ensures Metric(Kubernetes, PodCount) && Metric(Kubernetes, PendingPods) && Metric(Kubernetes, RunningPods)
    ensures Metric(Kubernetes, SucceededPods) && Metric(Kubernetes, FailedPods) && Metric(Kubernetes, UnknownPods)
    ensures Metric(Kubernetes, RuntimeClassPods) && Metric(Kubernetes, IsolatedWorkspacePods)
  {
    var fields := Required(Kubernetes);
    assert fields[0] == PodCount && fields[1] == PendingPods && fields[2] == RunningPods && fields[3] == SucceededPods;
    assert fields[4] == FailedPods && fields[5] == UnknownPods && fields[7] == RuntimeClassPods;
    assert fields[8] == IsolatedWorkspacePods;
  }

  lemma KubernetesCarries(v: Metrics, m: Metrics)
    requires Agree(v, m, Kubernetes) && KubernetesFits(m)
    ensures KubernetesFits(v)
  {
    hide Metric, N;
    KubernetesMetrics();
  }

  lemma GpuMetrics()
    ensures Metric(Gpu, GpuCount) && Metric(Gpu, SampleCount) && Metric(Gpu, GpuSeconds) && Metric(Gpu, GpuSampleSpanSeconds)
    ensures Metric(Gpu, GpuUtilizationMeanPct) && Metric(Gpu, GpuUtilizationMaxPct)
    ensures Metric(Gpu, GpuMemoryMeanMib) && Metric(Gpu, GpuMemoryPeakMib)
    ensures Metric(Gpu, GpuPowerMeanWatts) && Metric(Gpu, GpuPowerPeakWatts)
  {
    var fields, others := Required(Gpu), Optional(Gpu);
    assert fields[0] == GpuCount && fields[1] == SampleCount && fields[2] == GpuSeconds && fields[3] == GpuSampleSpanSeconds;
    assert fields[4] == GpuUtilizationMeanPct && fields[5] == GpuUtilizationMaxPct;
    assert others[0] == GpuMemoryMeanMib && others[1] == GpuMemoryPeakMib;
    assert others[2] == GpuPowerMeanWatts && others[3] == GpuPowerPeakWatts;
  }

  lemma GpuCarries(v: Metrics, m: Metrics)
    requires Agree(v, m, Gpu) && GpuFits(m, SampleCount)
    ensures GpuFits(v, GpuSampleCount)
  {
    hide Metric, N;
    GpuMetrics();
    assert N(m, GpuMemoryPeakMib) == N(v, GpuMemoryPeakMib) && N(m, GpuPowerPeakWatts) == N(v, GpuPowerPeakWatts);
    assert N(m, GpuMemoryMeanMib) == N(v, GpuMemoryMeanMib) && N(m, GpuPowerMeanWatts) == N(v, GpuPowerMeanWatts);
  }

  lemma RlCarries(v: Metrics, m: Metrics, run: Run, manifest: Manifest)
    requires Agree(v, m, Rl) && RlMatches(m, run, manifest)
    ensures RlMatches(v, run, manifest)
  {
    var fields := Required(Rl);
    assert fields[0] == TrainingSteps && fields[1] == FinalObservedStep && fields[3] == EvaluationEpisodes;
    assert fields[6] == CheckpointBytes;
  }

  lemma IssueRunFits(row: Row, observations: seq<Observation>, manifest: Manifest, printer: Printer)
    requires Merged(row, observations, manifest, printer) && IsIssueRun(row.run)
    ensures ValuesFit(row.run, Values(row, printer), manifest)
  {
    hide Values, Agree, FactoryFits, ModelFits, IssueMatches, RowOf, AllExact, Mergeable, KeysFit, Fits;
    var values := Values(row, printer);
    var factory := TheObservation(observations, manifest, row.run, Factory);
    var model := TheObservation(observations, manifest, row.run, Model);
    var issue := TheObservation(observations, manifest, row.run, Issue);
    ValuesAgree(row, observations, manifest, printer, factory);
    ValuesAgree(row, observations, manifest, printer, model);
    ValuesAgree(row, observations, manifest, printer, issue);
    FactoryCarries(values, factory.metrics);
    ModelCarries(values, model.metrics);
    IssueCarries(values, issue.metrics, row.run, manifest);
  }

  lemma RlRunFits(row: Row, observations: seq<Observation>, manifest: Manifest, printer: Printer)
    requires Merged(row, observations, manifest, printer) && !IsIssueRun(row.run)
    ensures ValuesFit(row.run, Values(row, printer), manifest)
  {
    hide Values, Agree, KubernetesFits, GpuFits, RlMatches, RowOf, AllExact, Mergeable, KeysFit, Fits;
    var values := Values(row, printer);
    var kubernetes := TheObservation(observations, manifest, row.run, Kubernetes);
    var gpu := TheObservation(observations, manifest, row.run, Gpu);
    var rl := TheObservation(observations, manifest, row.run, Rl);
    ValuesAgree(row, observations, manifest, printer, kubernetes);
    ValuesAgree(row, observations, manifest, printer, gpu);
    ValuesAgree(row, observations, manifest, printer, rl);
    KubernetesCarries(values, kubernetes.metrics);
    GpuCarries(values, gpu.metrics);
    RlCarries(values, rl.metrics, row.run, manifest);
  }

  lemma ProfileStands(row: Row, observations: seq<Observation>, manifest: Manifest, printer: Printer)
    requires Merged(row, observations, manifest, printer)
    ensures ProfileIs(row, manifest)
  {
    hide Values, RowOf, AllExact, Mergeable, Fits, Required, ReadCell, Same;
    var o := TheObservation(observations, manifest, row.run, Profile);
    forall f | f in Required(Profile)
      ensures f in manifest.profile && f in row.cells && row.cells[f] == manifest.profile[f]
    {
      RequiredObserved(o, manifest, f);
      CellFilled(row, observations, manifest, printer, o, f);
      ProfileColumn(f);
    }
  }

  lemma ProfileColumn(f: Field)
    requires f in Required(Profile)
    ensures Column(f) == f
  {
  }

  /** The reader takes every merged row. */
  lemma MergedRowFits(row: Row, observations: seq<Observation>, manifest: Manifest, printer: Printer)
    requires Merged(row, observations, manifest, printer)
    ensures RowFits(row, manifest, printer)
  {
    hide Merged, ProfileIs, GroupFits, AnyPresent, PresentSources, Sources, ValuesFit, Values, IsIssueRun;
    ProfileStands(row, observations, manifest, printer);
    forall s | s != Profile ensures GroupFits(row, s, printer) && (AnyPresent(row, s) <==> s in Sources(row.run)) {
      GroupIsFine(row, observations, manifest, printer, s);
      GroupPresent(row, observations, manifest, printer, s);
    }
    forall s | s != Profile ensures AnyPresent(row, s) <==> if IsIssueRun(row.run) then s.Factory? || s.Model? || s.Issue?
                                                             else s.Kubernetes? || s.Gpu? || s.Rl?
    {
      InSources(row.run, s);
    }
    SourcesInOrder(row);
    if IsIssueRun(row.run) {
      IssueRunFits(row, observations, manifest, printer);
    } else {
      RlRunFits(row, observations, manifest, printer);
    }
  }

  /** And reads back exactly what was observed: every metric in its column, and nothing else. */
  lemma MergedValues(row: Row, observations: seq<Observation>, manifest: Manifest, printer: Printer)
    requires Merged(row, observations, manifest, printer)
    ensures var values := Values(row, printer);
            && (forall o, f {:trigger o in observations, f in o.metrics} ::
                  o in observations && o.run == row.run && o.source != Profile && f in o.metrics ==>
                  Column(f) in values && Same(values[Column(f)], o.metrics[f]))
            && (forall c :: c in values ==> ObservedIn(observations, row.run, c))
  {
    hide Owner, Column, Format, Mergeable, RowOf, AllExact, ReadCell, Same;
    var values := Values(row, printer);
    forall o, f | o in observations && o.run == row.run && o.source != Profile && f in o.metrics
      ensures Column(f) in values && Same(values[Column(f)], o.metrics[f])
    {
      CellFilled(row, observations, manifest, printer, o, f);
    }
    forall c | c in values ensures ObservedIn(observations, row.run, c) {
      var o, f := FilledBy(row, observations, manifest, printer, c);
    }
  }

  ghost predicate ObservedIn(observations: seq<Observation>, run: Run, column: Field)
  {
    exists o, f {:trigger o in observations, f in o.metrics} ::
      o in observations && o.run == run && o.source != Profile && f in o.metrics && Column(f) == column
  }

  /** Merging and reading: every table merged from exactly printed observations is read in full. */
  method MergeAndRead(observations: seq<Observation>, manifest: Manifest, printer: Printer) returns (table: Option<seq<ReadRow>>)
    requires AllExact(observations, printer)
    ensures table.Some? <==> ListsRuns(manifest) && Mergeable(observations, manifest)
    ensures table.Some? ==> |table.value| == |Order(manifest)| && forall k :: 0 <= k < |table.value| ==>
              ReadsBack(table.value[k], observations, Order(manifest)[k])
    ensures table.Some? ==> forall k :: 0 <= k < |table.value| ==> Tells(table.value[k], observations)
  {
    hide ReadsBack, Tells, Mergeable, RowOf, AllExact, RowFits, Values, Same, Column, Order, ListsRuns;
    var rows := Merge(observations, manifest, printer);
    if rows.None? {
      return None;
    }
    var order := Order(manifest);
    forall k | 0 <= k < |order|
      ensures RowFits(rows.value[k], manifest, printer) && rows.value[k].run == order[k]
      ensures ReadsBack(ReadRow(order[k], Sources(order[k]), Values(rows.value[k], printer)), observations, order[k])
      ensures Tells(ReadRow(order[k], Sources(order[k]), Values(rows.value[k], printer)), observations)
    {
      RowRun(rows.value[k], observations, order[k], printer);
      MergedRowFits(rows.value[k], observations, manifest, printer);
      MergedValues(rows.value[k], observations, manifest, printer);
      var read := ReadRow(order[k], Sources(order[k]), Values(rows.value[k], printer));
      ValuesReadBack(read, observations);
      ReadTells(read, observations, order[k]);
    }
    RunsDiffer(manifest);
    table := ReadTable(rows.value, manifest, printer);
  }

  lemma RunsDiffer(manifest: Manifest)
    requires ListsRuns(manifest)
    ensures var order := Order(manifest); forall j, k :: 0 <= j < k < |order| ==> order[j] != order[k]
  {
  }

  /** A read row is its run's: the run's sources, and every observed metric with the value observed, and no other. */
  ghost predicate ReadsBack(read: ReadRow, observations: seq<Observation>, run: Run)
  {
    && read.run == run && read.sources == Sources(run)
    && (forall o, f {:trigger o in observations, f in o.metrics} ::
          o in observations && o.run == run && o.source != Profile && f in o.metrics ==>
          Column(f) in read.values && Same(read.values[Column(f)], o.metrics[f]))
    && (forall c :: c in read.values ==> ObservedIn(observations, run, c))
  }

  lemma ValuesReadBack(read: ReadRow, observations: seq<Observation>)
    requires read.sources == Sources(read.run)
    requires forall o, f {:trigger o in observations, f in o.metrics} ::
               o in observations && o.run == read.run && o.source != Profile && f in o.metrics ==>
               Column(f) in read.values && Same(read.values[Column(f)], o.metrics[f])
    requires forall c :: c in read.values ==> ObservedIn(observations, read.run, c)
    ensures ReadsBack(read, observations, read.run)
  {
    hide Column, Same;
  }

  predicate HoldsValue(values: Metrics, field: Field, value: Value)
  {
    field in values && Same(values[field], value)
  }

  predicate TellsMetric(values: Metrics, field: Field, value: Value)
  {
    if field.SampleCount? then HoldsValue(values, GpuSampleCount, value) else HoldsValue(values, field, value)
  }

  /** Some observation of the run, other than its profile, has a metric that goes there. */
  ghost predicate MeantValue(observations: seq<Observation>, run: Run, column: Field)
  {
    exists o, f {:trigger f in o.metrics, o in observations} ::
      o in observations && o.run == run && o.source != Profile && f in o.metrics && Under(f, column)
  }

  /** The values read are those observed, each under its own name, a sample count under the table's; and no others. */
  ghost predicate Tells(read: ReadRow, observations: seq<Observation>)
  {
    && read.sources == (if read.run.Cleanrl488? || read.run.Cleanrl562? then [Factory, Model, Issue]
                        else [Kubernetes, Gpu, Rl])
    && (forall o, f {:trigger f in o.metrics, o in observations} ::
          o in observations && o.run == read.run && o.source != Profile && f in o.metrics ==>
          TellsMetric(read.values, f, o.metrics[f]))
    && (forall c :: c in read.values ==> MeantValue(observations, read.run, c))
  }

  lemma ValueMeant(observations: seq<Observation>, run: Run, c: Field)
    requires ObservedIn(observations, run, c)
    ensures MeantValue(observations, run, c)
  {
    hide Column, Under;
    var o, f :| o in observations && o.run == run && o.source != Profile && f in o.metrics && Column(f) == c;
    ColumnIsUnder(f);
    assert f in o.metrics;
  }

  lemma MetricTold(read: ReadRow, observations: seq<Observation>, run: Run, o: Observation, f: Field)
    requires ReadsBack(read, observations, run)
    requires o in observations && o.run == run && o.source != Profile && f in o.metrics
    ensures TellsMetric(read.values, f, o.metrics[f])
  {
    hide Column, Same, ObservedIn;
    ColumnIsUnder(f);
  }

  lemma ReadShape(read: ReadRow, observations: seq<Observation>, run: Run)
    requires ReadsBack(read, observations, run)
    ensures read.run == run && read.sources == Sources(run)
    ensures forall c :: c in read.values ==> ObservedIn(observations, run, c)
  {
    hide Column, Same, ObservedIn, Sources;
  }

  lemma ReadTells(read: ReadRow, observations: seq<Observation>, run: Run)
    requires ReadsBack(read, observations, run)
    ensures Tells(read, observations)
  {
    hide ReadsBack, Column, Same, ObservedIn, MeantValue, TellsMetric;
    ReadShape(read, observations, run);
    forall o, f | o in observations && o.run == read.run && o.source != Profile && f in o.metrics
      ensures TellsMetric(read.values, f, o.metrics[f])
    {
      MetricTold(read, observations, run, o, f);
    }
    forall c | c in read.values ensures MeantValue(observations, read.run, c) {
      ValueMeant(observations, run, c);
    }
  }
}
