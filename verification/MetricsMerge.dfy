/** The merge: observations grouped by run and source, then one row a run. */
module MetricsMerge {
  import opened Common
  import opened MetricsFields
  import opened MetricsNumbers
  import opened MetricsTable

  const SOURCES := [Profile, Factory, Model, Issue, Kubernetes, Gpu, Rl]

  type Groups = map<(Run, Source), Metrics>

  // ---------------------------------------------------------------------------------------------
  // Grouping
  // ---------------------------------------------------------------------------------------------

  ghost predicate Grouped(groups: Groups, observations: seq<Observation>)
  {
    && (forall o :: o in observations ==> (o.run, o.source) in groups && groups[(o.run, o.source)] == o.metrics)
    && (forall key :: key in groups ==> Observation(key.0, key.1, groups[key]) in observations)
  }

  ghost predicate Fine(observations: seq<Observation>, manifest: Manifest)
  {
    (forall o :: o in observations ==> Valid(o, manifest)) && Distinct(observations)
  }

  lemma DistinctNext(observations: seq<Observation>, o: Observation)
    ensures Distinct(observations + [o])
       <==> Distinct(observations) && forall p :: p in observations ==> p.run != o.run || p.source != o.source
  {
    var all := observations + [o];
    assert forall i :: 0 <= i < |observations| ==> all[i] == observations[i];
    assert all[|observations|] == o;
    if Distinct(all) {
      forall p | p in observations ensures p.run != o.run || p.source != o.source {
        var i :| 0 <= i < |observations| && observations[i] == p;
        assert all[i] == p;
      }
      forall i, j | 0 <= i < j < |observations|
        ensures observations[i].run != observations[j].run || observations[i].source != observations[j].source
      {
        assert all[i] == observations[i] && all[j] == observations[j];
      }
    }
  }

  lemma GroupNext(groups: Groups, observations: seq<Observation>, o: Observation, manifest: Manifest)
    requires Grouped(groups, observations) && Fine(observations, manifest)
    ensures Fine(observations + [o], manifest) <==> Valid(o, manifest) && (o.run, o.source) !in groups
    ensures (o.run, o.source) !in groups ==> Grouped(groups[(o.run, o.source) := o.metrics], observations + [o])
  {
    hide Valid, Distinct;
    DistinctNext(observations, o);
    var all := observations + [o];
    assert forall p :: p in all <==> p in observations || p == o;
    var key := (o.run, o.source);
    if key in groups {
      assert Observation(key.0, key.1, groups[key]) in observations;
    }
  }

  lemma Spoiled(observations: seq<Observation>, i: nat, manifest: Manifest)
    requires i <= |observations| && !Fine(observations[..i], manifest)
    ensures !Fine(observations, manifest)
  {
    hide Valid;
    var first := observations[..i];
    assert forall o :: o in first ==> o in observations;
    assert forall k :: 0 <= k < i ==> first[k] == observations[k];
  }

  method Group(observations: seq<Observation>, manifest: Manifest) returns (groups: Option<Groups>)
    ensures groups.Some? <==> Fine(observations, manifest)
    ensures groups.Some? ==> Grouped(groups.value, observations)
  {
    hide Valid, Fine, Grouped;
    var grouped: Groups := map[];
    NothingGrouped(manifest);
    assert observations[..0] == [];
    for i := 0 to |observations|
      invariant Fine(observations[..i], manifest) && Grouped(grouped, observations[..i])
    {
      var o := observations[i];
      assert observations[..i + 1] == observations[..i] + [o];
      GroupNext(grouped, observations[..i], o, manifest);
      if !Valid(o, manifest) || (o.run, o.source) in grouped {
        Spoiled(observations, i + 1, manifest);
        return None;
      }
      grouped := grouped[(o.run, o.source) := o.metrics];
    }
    assert observations[..|observations|] == observations;
    return Some(grouped);
  }

  lemma NothingGrouped(manifest: Manifest)
    ensures Fine([], manifest) && Grouped(map[], [])
  {
  }

  // ---------------------------------------------------------------------------------------------
  // One row
  // ---------------------------------------------------------------------------------------------

  /** The cells hold these metrics, each in its column, and nothing else. */
  ghost predicate CellsAre(cells: map<Field, string>, metrics: Metrics, printer: Printer)
  {
    && (forall f :: f in metrics ==> Column(f) in cells && cells[Column(f)] == Format(metrics[f], printer))
    && (forall c :: c in cells ==> exists f :: f in metrics && Column(f) == c)
  }

  lemma ColumnsDiffer(f: Field, g: Field)
    requires !f.GpuSampleCount? && !g.GpuSampleCount? && Column(f) == Column(g)
    ensures f == g
  {
  }

  /** The metrics of one source, printed into their columns. */
  method Print(metrics: Metrics, printer: Printer) returns (cells: map<Field, string>)
    requires GpuSampleCount !in metrics
    ensures CellsAre(cells, metrics, printer)
  {
    hide Column, Format;
    cells := map[];
    var todo := metrics.Keys;
    while todo != {}
      invariant todo <= metrics.Keys
      invariant forall f :: f in metrics && f !in todo ==> Column(f) in cells && cells[Column(f)] == Format(metrics[f], printer)
      invariant forall c :: c in cells ==> exists f :: f in metrics && Column(f) == c
    {
      var f :| f in todo;
      forall g | g in metrics && Column(g) == Column(f) ensures g == f {
        ColumnsDiffer(g, f);
      }
      cells := cells[Column(f) := Format(metrics[f], printer)];
      todo := todo - {f};
    }
  }

  ghost predicate Has(groups: Groups, run: Run, source: Source, field: Field)
  {
    (run, source) in groups && field in groups[(run, source)]
  }

  /** The cells hold what the groups of these sources say of the run, in columns these sources own. */
  ghost predicate CellsSoFar(cells: map<Field, string>, groups: Groups, run: Run, done: set<Source>, printer: Printer)
  {
    && (forall s, f {:trigger Has(groups, run, s, f)} :: s in done && Has(groups, run, s, f) ==>
          Holds(cells, Column(f), Format(groups[(run, s)][f], printer)))
    && (forall c :: c in cells ==> SaidBy(groups, run, done, c))
    && (forall c :: c in cells ==> OwnedAmong(c, done))
  }

  predicate Holds(cells: map<Field, string>, column: Field, cell: string)
  {
    column in cells && cells[column] == cell
  }

  ghost predicate OwnedAmong(column: Field, done: set<Source>)
  {
    Owner(column).Some? && Owner(column).value in done
  }

  ghost predicate SaidBy(groups: Groups, run: Run, done: set<Source>, column: Field)
  {
    exists s, f {:trigger Has(groups, run, s, f)} :: s in done && Has(groups, run, s, f) && Column(f) == column
  }

  /** A source's columns are its own. */
  ghost predicate Owned(cells: map<Field, string>, source: Source)
  {
    forall c :: c in cells ==> Owner(c) == Some(source)
  }

  lemma CellsOwned(cells: map<Field, string>, metrics: Metrics, source: Source, printer: Printer)
    requires KeysFit(source, metrics) && CellsAre(cells, metrics, printer)
    ensures Owned(cells, source)
  {
    hide Column, Owner, Format, Required, Optional;
    forall c | c in cells ensures Owner(c) == Some(source) {
      var f :| f in metrics && Column(f) == c;
      MetricsAreOwned(source, f);
    }
  }

  lemma SaidMore(groups: Groups, run: Run, done: set<Source>, source: Source, column: Field)
    requires SaidBy(groups, run, done, column)
    ensures SaidBy(groups, run, done + {source}, column)
  {
    hide Column, Has;
    var s, f :| s in done && Has(groups, run, s, f) && Column(f) == column;
  }

  lemma SaidNow(groups: Groups, run: Run, done: set<Source>, source: Source, more: map<Field, string>, column: Field,
                printer: Printer)
    requires (run, source) in groups && CellsAre(more, groups[(run, source)], printer) && column in more
    ensures SaidBy(groups, run, done + {source}, column)
  {
    hide Column, Format;
    var f :| f in groups[(run, source)] && Column(f) == column;
    assert Has(groups, run, source, f);
  }

  /** One source more: its columns are not yet taken, so nothing is overwritten. */
  lemma SourceAdded(cells: map<Field, string>, more: map<Field, string>, groups: Groups, run: Run, done: set<Source>,
                    source: Source, printer: Printer)
    requires CellsSoFar(cells, groups, run, done, printer) && source !in done
    requires (run, source) in groups && CellsAre(more, groups[(run, source)], printer) && Owned(more, source)
    ensures CellsSoFar(cells + more, groups, run, done + {source}, printer)
  {
    hide Column, Owner, Format, SaidBy;
    var all := cells + more;
    forall c | c in all ensures SaidBy(groups, run, done + {source}, c) {
      if c in more {
        SaidNow(groups, run, done, source, more, c, printer);
      } else {
        SaidMore(groups, run, done, source, c);
      }
    }
    forall s, f | s in done + {source} && Has(groups, run, s, f)
      ensures Holds(all, Column(f), Format(groups[(run, s)][f], printer))
    {
      assert s in done ==> Holds(cells, Column(f), Format(groups[(run, s)][f], printer)) && OwnedAmong(Column(f), done);
    }
  }

  lemma SourceMissing(cells: map<Field, string>, groups: Groups, run: Run, done: set<Source>, source: Source, printer: Printer)
    requires CellsSoFar(cells, groups, run, done, printer) && (run, source) !in groups
    ensures CellsSoFar(cells, groups, run, done + {source}, printer)
  {
    hide Column, Owner, Format, SaidBy;
    forall c | c in cells ensures SaidBy(groups, run, done + {source}, c) {
      SaidMore(groups, run, done, source, c);
    }
  }

  lemma NoCells(groups: Groups, run: Run, printer: Printer)
    ensures CellsSoFar(map[], groups, run, {}, printer)
  {
  }

  lemma KeysLack(source: Source, metrics: Metrics)
    requires KeysFit(source, metrics)
    ensures GpuSampleCount !in metrics
  {
    assert GpuSampleCount !in Required(source) && GpuSampleCount !in Optional(source);
  }

  ghost predicate GroupsFit(groups: Groups)
  {
    forall key :: key in groups ==> KeysFit(key.1, groups[key])
  }

  function AllSources(): set<Source>
  {
    set s | s in SOURCES
  }

  /** A run's row. */
  method BuildRow(run: Run, groups: Groups, printer: Printer) returns (row: Row)
    requires GroupsFit(groups)
    ensures row.run == run && CellsSoFar(row.cells, groups, run, AllSources(), printer)
  {
    hide CellsSoFar, KeysFit, CellsAre, Owned;
    var cells: map<Field, string> := map[];
    ghost var done: set<Source> := {};
    NoCells(groups, run, printer);
    for k := 0 to |SOURCES|
      invariant done == set s | s in SOURCES[..k]
      invariant CellsSoFar(cells, groups, run, done, printer)
    {
      var source := SOURCES[k];
      SourceIsNew(k);
      assert SOURCES[..k + 1] == SOURCES[..k] + [source];
      if (run, source) in groups {
        var metrics := groups[(run, source)];
        KeysLack(source, metrics);
        var more := Print(metrics, printer);
        CellsOwned(more, metrics, source, printer);
        SourceAdded(cells, more, groups, run, done, source, printer);
        cells := cells + more;
      } else {
        SourceMissing(cells, groups, run, done, source, printer);
      }
      done := done + {source};
    }
    assert SOURCES[..|SOURCES|] == SOURCES;
    return Row(run, cells);
  }

  lemma SourceIsNew(k: nat)
    requires k < |SOURCES|
    ensures SOURCES[k] !in SOURCES[..k]
  {
  }

  lemma EverySource(source: Source)
    ensures source in SOURCES
  {
    match source
    case Profile => assert SOURCES[0] == Profile;
    case Factory => assert SOURCES[1] == Factory;
    case Model => assert SOURCES[2] == Model;
    case Issue => assert SOURCES[3] == Issue;
    case Kubernetes => assert SOURCES[4] == Kubernetes;
    case Gpu => assert SOURCES[5] == Gpu;
    case Rl => assert SOURCES[6] == Rl;
  }

  /** The row built from the groups is the one the observations call for. */
  lemma BuiltIsRow(row: Row, groups: Groups, observations: seq<Observation>, run: Run, printer: Printer)
    requires Grouped(groups, observations) && row.run == run
    requires CellsSoFar(row.cells, groups, run, AllSources(), printer)
    ensures RowOf(row, observations, run, printer)
  {
    hide Column, Owner, Format;
    forall o, f | o in observations && o.run == run && f in o.metrics
      ensures Column(f) in row.cells && row.cells[Column(f)] == Format(o.metrics[f], printer)
    {
      EverySource(o.source);
      assert Has(groups, run, o.source, f);
    }
    forall c | c in row.cells ensures Says(observations, run, printer, c, row.cells[c]) {
      var s, f :| s in AllSources() && Has(groups, run, s, f) && Column(f) == c;
      var o := Observation(run, s, groups[(run, s)]);
      assert o in observations && f in o.metrics;
    }
  }

  lemma GroupsAreValid(groups: Groups, observations: seq<Observation>, manifest: Manifest)
    requires Grouped(groups, observations) && Fine(observations, manifest)
    ensures GroupsFit(groups)
  {
    hide KeysFit;
    forall key | key in groups ensures KeysFit(key.1, groups[key]) {
      var o := Observation(key.0, key.1, groups[key]);
      assert o in observations && Valid(o, manifest);
    }
  }

  /** Each run has exactly its sources. */
  ghost predicate Complete(groups: Groups)
  {
    forall run, source :: (run, source) in groups <==> Expected(run, source)
  }

  method IsComplete(groups: Groups) returns (complete: bool)
    ensures complete <==> Complete(groups)
  {
    hide Expected;
    for i := 0 to |RUNS|
      invariant forall j, source :: 0 <= j < i ==> ((RUNS[j], source) in groups <==> Expected(RUNS[j], source))
    {
      for k := 0 to |SOURCES|
        invariant forall m :: 0 <= m < k ==> ((RUNS[i], SOURCES[m]) in groups <==> Expected(RUNS[i], SOURCES[m]))
      {
        if ((RUNS[i], SOURCES[k]) in groups) != Expected(RUNS[i], SOURCES[k]) {
          return false;
        }
      }
      forall source ensures (RUNS[i], source) in groups <==> Expected(RUNS[i], source) {
        EverySource(source);
      }
    }
    forall run, source ensures (run, source) in groups <==> Expected(run, source) {
      EveryRun(run);
    }
    return true;
  }

  lemma EveryRun(run: Run)
    ensures run in RUNS
  {
    match run
    case Cleanrl488 => assert RUNS[0] == Cleanrl488;
    case Cleanrl562 => assert RUNS[1] == Cleanrl562;
    case C51Gb10 => assert RUNS[2] == C51Gb10;
    case C51A100 => assert RUNS[3] == C51A100;
  }

  lemma CompleteIsObserved(groups: Groups, observations: seq<Observation>, manifest: Manifest)
    requires Grouped(groups, observations) && Fine(observations, manifest)
    ensures Complete(groups) <==> Mergeable(observations, manifest)
  {
    hide Valid, Distinct, Expected;
    forall run, source ensures Observed(observations, run, source) <==> (run, source) in groups {
      if (run, source) in groups {
        assert Observation(run, source, groups[(run, source)]) in observations;
      }
    }
  }

  /** The cell stands under the metric's own name, or, for a sample count, under the name the table has for it. */
  predicate Under(field: Field, column: Field)
  {
    if field.SampleCount? then column.GpuSampleCount? else column == field
  }

  /** The metric's cell is there. */
  predicate ShowsMetric(cells: map<Field, string>, field: Field, cell: string)
  {
    if field.SampleCount? then Holds(cells, GpuSampleCount, cell) else Holds(cells, field, cell)
  }

  /** Some observation of the run has a metric that goes there. */
  ghost predicate Meant(observations: seq<Observation>, run: Run, column: Field)
  {
    exists o, f {:trigger f in o.metrics, o in observations} ::
      o in observations && o.run == run && f in o.metrics && Under(f, column)
  }

  /** The row shows every metric its run's observations have, under its name, and nothing else. */
  ghost predicate Shows(row: Row, observations: seq<Observation>, printer: Printer)
  {
    && (forall o, f {:trigger f in o.metrics, o in observations} ::
          o in observations && o.run == row.run && f in o.metrics ==>
          ShowsMetric(row.cells, f, Format(o.metrics[f], printer)))
    && (forall c :: c in row.cells ==> Meant(observations, row.run, c))
  }

  lemma ColumnIsUnder(field: Field)
    ensures field.SampleCount? ==> Column(field) == GpuSampleCount
    ensures !field.SampleCount? ==> Column(field) == field
    ensures Under(field, Column(field))
  {
  }

  lemma CellMeant(row: Row, observations: seq<Observation>, run: Run, printer: Printer, c: Field)
    requires RowOf(row, observations, run, printer) && c in row.cells
    ensures Meant(observations, run, c)
  {
    hide Column, Format, Under;
    assert Says(observations, run, printer, c, row.cells[c]);
    var o, f :| o in observations && o.run == run && f in o.metrics && Column(f) == c
             && Format(o.metrics[f], printer) == row.cells[c];
    ColumnIsUnder(f);
    assert f in o.metrics;
  }

  lemma MetricShown(row: Row, observations: seq<Observation>, run: Run, printer: Printer, o: Observation, f: Field)
    requires RowOf(row, observations, run, printer) && o in observations && o.run == run && f in o.metrics
    ensures ShowsMetric(row.cells, f, Format(o.metrics[f], printer))
  {
    hide Column, Format, Says;
    ColumnIsUnder(f);
  }

  lemma RowRun(row: Row, observations: seq<Observation>, run: Run, printer: Printer)
    requires RowOf(row, observations, run, printer)
    ensures row.run == run
  {
  }

  lemma RowShows(row: Row, observations: seq<Observation>, run: Run, printer: Printer)
    requires RowOf(row, observations, run, printer)
    ensures Shows(row, observations, printer)
  {
    hide RowOf, Column, Format, Meant, ShowsMetric;
    RowRun(row, observations, run, printer);
    forall o, f | o in observations && o.run == row.run && f in o.metrics
      ensures ShowsMetric(row.cells, f, Format(o.metrics[f], printer))
    {
      MetricShown(row, observations, run, printer, o, f);
    }
    forall c | c in row.cells ensures Meant(observations, row.run, c) {
      CellMeant(row, observations, run, printer, c);
    }
  }

  /**
   Merging: it succeeds exactly on a manifest of all runs and observations that make a table; there is a row for
   each run, in the manifest's order, and it holds what the observations say of its run.
   */
  method Merge(observations: seq<Observation>, manifest: Manifest, printer: Printer) returns (rows: Option<seq<Row>>)
    ensures rows.Some? <==> ListsRuns(manifest) && Mergeable(observations, manifest)
    ensures rows.Some? ==> TableOf(rows.value, observations, manifest, printer)
    ensures rows.Some? ==> forall k :: 0 <= k < |rows.value| ==> Shows(rows.value[k], observations, printer)
  {
    hide Shows, Fine, Grouped, Complete, Mergeable, RowOf, CellsSoFar, GroupsFit, ListsRuns, Order;
    if !ListsRuns(manifest) {
      return None;
    }
    var groups := Group(observations, manifest);
    if groups.None? {
      NotFine(observations, manifest);
      return None;
    }
    CompleteIsObserved(groups.value, observations, manifest);
    GroupsAreValid(groups.value, observations, manifest);
    var complete := IsComplete(groups.value);
    if !complete {
      return None;
    }
    var built: seq<Row>, order := [], Order(manifest);
    for k := 0 to |order|
      invariant |built| == k && forall j :: 0 <= j < k ==> RowOf(built[j], observations, order[j], printer)
      invariant forall j :: 0 <= j < k ==> Shows(built[j], observations, printer)
    {
      var row := BuildRow(order[k], groups.value, printer);
      BuiltIsRow(row, groups.value, observations, order[k], printer);
      RowShows(row, observations, order[k], printer);
      built := built + [row];
    }
    return Some(built);
  }

  /** One row for each run, in the manifest's order. */
  ghost predicate TableOf(rows: seq<Row>, observations: seq<Observation>, manifest: Manifest, printer: Printer)
  {
    && |rows| == |Order(manifest)|
    && forall k :: 0 <= k < |rows| ==> RowOf(rows[k], observations, Order(manifest)[k], printer)
  }

  /** The order of the observations changes nothing: the same table comes out, or none. */
  lemma OrderIrrelevant(a: seq<Observation>, b: seq<Observation>, rows: seq<Row>, others: seq<Row>, manifest: Manifest,
                        printer: Printer)
    requires multiset(a) == multiset(b)
    ensures Mergeable(a, manifest) <==> Mergeable(b, manifest)
    ensures TableOf(rows, a, manifest, printer) && TableOf(others, b, manifest, printer) ==> rows == others
  {
    hide Mergeable, RowOf, Order;
    if Mergeable(a, manifest) {
      MergeableInAnyOrder(a, b, manifest);
    }
    if Mergeable(b, manifest) {
      MergeableInAnyOrder(b, a, manifest);
    }
    if TableOf(rows, a, manifest, printer) && TableOf(others, b, manifest, printer) {
      forall k | 0 <= k < |rows| ensures rows[k] == others[k] {
        OneRow(rows[k], others[k], a, b, Order(manifest)[k], printer);
      }
    }
  }

  lemma NotFine(observations: seq<Observation>, manifest: Manifest)
    requires !Fine(observations, manifest)
    ensures !Mergeable(observations, manifest)
  {
  }
}
