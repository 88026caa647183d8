/**
 * Reporting and plotting (`Engine.report`, `Engine.plot`): both walk the
 * registry's experiments sorted by name and, within each, its measures by
 * index, under the label `name + ' ' + measure_name`. A report that raises is
 * swallowed with a notice and the walk goes on; a plot that raises ends the
 * walk, and with it the final `'all'` plot.
 */
module Output {
  import opened Wrappers
  import opened PyDict
  import opened Sorting
  import opened Experiments

  /** An entry of `sorted_items(self.experiments)`. */
  type Item = (string, Experiment)

  // ---------------------------------------------------------------- report

  /** The calls made for the first `n` measures of one experiment's report. */
  function ReportMeasures(name: string, exp: Experiment, results: Results, world: World, n: nat): (calls: seq<Call>)
    requires n <= |exp.measures|
  {
    if n == 0 then []
    else
      ReportMeasures(name, exp, results, world, n - 1) +
      [Report(Label(name, exp.measures[n - 1]), results, n - 1)] +
      (if world.reportRaises(exp, n - 1) then [Notice(ReportFailed)] else [])
  }

  /** The calls made for one experiment: its stored results, then every measure. */
  function ReportExperiment(item: Item, world: World): (calls: seq<Call>)
  {
    var results := world.storedResultsOf([item.1]);
    [StoredResultsOf([item.1])] + ReportMeasures(item.0, item.1, results, world, |item.1.measures|)
  }

  /** The calls `report` makes over `items`. */
  function ReportTrace(items: seq<Item>, world: World): (calls: seq<Call>)
  {
    if items == [] then []
    else ReportTrace(items[..|items| - 1], world) + ReportExperiment(items[|items| - 1], world)
  }

  /** One more item: its report calls follow. */
  lemma ReportTraceStep(items: seq<Item>, j: nat, world: World)
    requires j < |items|
    ensures ReportTrace(items[..j + 1], world) == ReportTrace(items[..j], world) + ReportExperiment(items[j], world)
  {
    assert items[..j + 1][..j] == items[..j];
  }

  /** The calls with the printed notices left out. */
  function Attempts(calls: seq<Call>): (attempts: seq<Call>)
  {
    if calls == [] then []
    else Attempts(calls[..|calls| - 1]) + if calls[|calls| - 1].Notice? then [] else [calls[|calls| - 1]]
  }

  lemma {:induction false} AttemptsAppend(a: seq<Call>, b: seq<Call>)
    ensures Attempts(a + b) == Attempts(a) + Attempts(b)
    decreases |b|
  {
    if b == [] {
      assert a + b == a;
    } else {
      assert (a + b)[..|a + b| - 1] == a + b[..|b| - 1];
      assert (a + b)[|a + b| - 1] == b[|b| - 1];
      AttemptsAppend(a, b[..|b| - 1]);
    }
  }

  /** The report calls for the first `n` measures, in index order. */
  function MeasureReports(name: string, exp: Experiment, results: Results, n: nat): (calls: seq<Call>)
    requires n <= |exp.measures|
    ensures |calls| == n
    ensures forall i :: 0 <= i < n ==> calls[i] == Report(Label(name, exp.measures[i]), results, i)
  {
    seq(n, i requires 0 <= i < n => Report(Label(name, exp.measures[i]), results, i))
  }

  /**
   * Within one experiment every measure is reported, by index from 0 up,
   * whichever of them raise.
   */
  lemma {:induction false} ReportAttemptsEveryMeasure(name: string, exp: Experiment, results: Results, world: World, n: nat)
    requires n <= |exp.measures|
    ensures Attempts(ReportMeasures(name, exp, results, world, n)) == MeasureReports(name, exp, results, n)
  {
    if n > 0 {
      var report := [Report(Label(name, exp.measures[n - 1]), results, n - 1)];
      ReportAttemptsEveryMeasure(name, exp, results, world, n - 1);
      ReportAttemptsOneMore(ReportMeasures(name, exp, results, world, n - 1), report[0], world.reportRaises(exp, n - 1));
      MeasureReportsStep(name, exp, results, n);
    }
  }

  lemma MeasureReportsStep(name: string, exp: Experiment, results: Results, n: nat)
    requires 0 < n <= |exp.measures|
    ensures MeasureReports(name, exp, results, n) ==
      MeasureReports(name, exp, results, n - 1) + [Report(Label(name, exp.measures[n - 1]), results, n - 1)]
  {
  }

  /** A report call, with or without its notice, adds just the call to the attempts. */
  lemma ReportAttemptsOneMore(calls: seq<Call>, report: Call, failed: bool)
    requires !report.Notice?
    ensures Attempts(calls + [report] + (if failed then [Notice(ReportFailed)] else [])) == Attempts(calls) + [report]
  {
    var notice: seq<Call> := if failed then [Notice(ReportFailed)] else [];
    AttemptsAppend(calls + [report], notice);
    AttemptsAppend(calls, [report]);
    assert [report][..0] == [];
    if failed {
      assert notice[..0] == [];
    }
  }

  /** The store queries and report calls `report` attempts for `items`. */
  function ReportAttempts(items: seq<Item>, world: World): (calls: seq<Call>)
  {
    if items == [] then []
    else
      var item := items[|items| - 1];
      ReportAttempts(items[..|items| - 1], world) +
      [StoredResultsOf([item.1])] +
      MeasureReports(item.0, item.1, world.storedResultsOf([item.1]), |item.1.measures|)
  }

  /**
   * A report that raises costs only its notice: leaving the notices out,
   * `report` makes the same calls whichever reports raise, namely a store
   * query and then every measure's report, for every experiment in turn.
   */
  lemma {:induction false} ReportIsolatesFailures(items: seq<Item>, world: World)
    ensures Attempts(ReportTrace(items, world)) == ReportAttempts(items, world)
  {
    if items != [] {
      var item := items[|items| - 1];
      ReportIsolatesFailures(items[..|items| - 1], world);
      AttemptsAppend(ReportTrace(items[..|items| - 1], world), ReportExperiment(item, world));
      ReportExperimentAttempts(item, world);
    }
  }

  /** For one experiment: the store query, then every measure's report. */
  lemma ReportExperimentAttempts(item: Item, world: World)
    ensures Attempts(ReportExperiment(item, world)) ==
      [StoredResultsOf([item.1])] + MeasureReports(item.0, item.1, world.storedResultsOf([item.1]), |item.1.measures|)
  {
    var results := world.storedResultsOf([item.1]);
    var query := [StoredResultsOf([item.1])];
    AttemptsAppend(query, ReportMeasures(item.0, item.1, results, world, |item.1.measures|));
    assert query[..0] == [];
    ReportAttemptsEveryMeasure(item.0, item.1, results, world, |item.1.measures|);
  }

  // ------------------------------------------------------------------ plot

  /**
   * The plot calls for the first `n` measures of one experiment, and whether
   * one of them raised; nothing follows a plot that raised.
   */
  function PlotMeasures(name: string, exp: Experiment, results: Results, world: World, n: nat): (r: (seq<Call>, bool))
    requires n <= |exp.measures|
  {
    if n == 0 then ([], false)
    else
      var (calls, raised) := PlotMeasures(name, exp, results, world, n - 1);
      if raised then (calls, true)
      else (calls + [Plot(Label(name, exp.measures[n - 1]), results, n - 1)], world.plotRaises(exp, n - 1))
  }

  /** The calls made for one experiment's plots, and whether one raised. */
  function PlotExperiment(item: Item, world: World): (r: (seq<Call>, bool))
  {
    var results := world.storedResultsOf([item.1]);
    var (calls, raised) := PlotMeasures(item.0, item.1, results, world, |item.1.measures|);
    ([StoredResultsOf([item.1])] + calls, raised)
  }

  /** The calls the per-experiment part of `plot` makes over `items`, and whether a plot raised. */
  function PlotTrace(items: seq<Item>, world: World): (r: (seq<Call>, bool))
  {
    if items == [] then ([], false)
    else
      var (calls, raised) := PlotTrace(items[..|items| - 1], world);
      if raised then (calls, true)
      else
        var (more, raisedNow) := PlotExperiment(items[|items| - 1], world);
        (calls + more, raisedNow)
  }

  /**
   * Within one experiment, plots go by index from 0 up and stop at the
   * first that raises: the calls are the plots of measures `0..k-1` where
   * either no plot raised and `k` is the number of measures, or plot `k-1`
   * is the first that raised.
   */
  lemma {:induction false} PlotMeasuresStopAtFirstRaise(name: string, exp: Experiment, results: Results, world: World, n: nat)
    requires n <= |exp.measures|
    ensures var (calls, raised) := PlotMeasures(name, exp, results, world, n);
      |calls| <= n &&
      calls == MeasurePlots(name, exp, results, |calls|) &&
      (forall i :: 0 <= i < |calls| - 1 ==> !world.plotRaises(exp, i)) &&
      (raised <==> |calls| > 0 && world.plotRaises(exp, |calls| - 1)) &&
      (!raised ==> |calls| == n)
  {
    if n > 0 {
      PlotMeasuresStopAtFirstRaise(name, exp, results, world, n - 1);
      var (calls, raised) := PlotMeasures(name, exp, results, world, n - 1);
      if !raised {
        assert MeasurePlots(name, exp, results, n) ==
          calls + [Plot(Label(name, exp.measures[n - 1]), results, n - 1)];
      }
    }
  }

  /** Once a plot of an experiment raised, its later measures add nothing. */
  lemma {:induction false} PlotMeasuresHaltAfterRaise(name: string, exp: Experiment, results: Results, world: World, m: nat, n: nat)
    requires m <= n <= |exp.measures| && PlotMeasures(name, exp, results, world, m).1
    ensures PlotMeasures(name, exp, results, world, n) == PlotMeasures(name, exp, results, world, m)
    decreases n
  {
    if m < n {
      PlotMeasuresHaltAfterRaise(name, exp, results, world, m, n - 1);
    }
  }

  /** The plot calls for the first `n` measures, in index order. */
  function MeasurePlots(name: string, exp: Experiment, results: Results, n: nat): (calls: seq<Call>)
    requires n <= |exp.measures|
    ensures |calls| == n
    ensures forall i :: 0 <= i < n ==> calls[i] == Plot(Label(name, exp.measures[i]), results, i)
  {
    seq(n, i requires 0 <= i < n => Plot(Label(name, exp.measures[i]), results, i))
  }

  /**
   * A plot that raises ends the walk: once the items so far raised, no
   * later experiment adds a call.
   */
  lemma {:induction false} PlotHaltsAfterRaise(items: seq<Item>, more: seq<Item>, world: World)
    requires PlotTrace(items, world).1
    ensures PlotTrace(items + more, world) == PlotTrace(items, world)
    decreases |more|
  {
    if more == [] {
      assert items + more == items;
    } else {
      assert (items + more)[..|items + more| - 1] == items + more[..|more| - 1];
      PlotHaltsAfterRaise(items, more[..|more| - 1], world);
    }
  }

  /** One more item: its plots follow, unless an earlier plot raised. */
  lemma PlotTraceStep(items: seq<Item>, j: nat, world: World)
    requires j < |items| && !PlotTrace(items[..j], world).1
    ensures PlotTrace(items[..j + 1], world) ==
      (PlotTrace(items[..j], world).0 + PlotExperiment(items[j], world).0, PlotExperiment(items[j], world).1)
  {
    assert items[..j + 1][..j] == items[..j];
  }

  /** The final plot over every experiment, made when a plotter is set. */
  function AllPlotCalls(reg: Dict<string, Experiment>, world: World): (calls: seq<Call>)
    requires reg.Valid()
  {
    [StoredResultsOf(reg.Values()), PlotterRunWith(world.storedResultsOf(reg.Values()), "all", 0)]
  }

  /** The calls `plot` makes. */
  function PlotCalls(reg: Dict<string, Experiment>, plotter: Option<Plotter>, world: World): (calls: seq<Call>)
    requires reg.Valid()
  {
    var (calls, raised) := PlotTrace(SortedItems(reg), world);
    if raised || plotter.None? then calls else calls + AllPlotCalls(reg, world)
  }

  /** How `plot` ends. */
  function PlotStatus(reg: Dict<string, Experiment>, plotter: Option<Plotter>, world: World): (s: Status)
    requires reg.Valid()
  {
    if PlotTrace(SortedItems(reg), world).1 then Failed(PlotRaised)
    else if plotter.None? then Completed
    else if world.plotterRaises(plotter.value, world.storedResultsOf(reg.Values())) then Failed(PlotterRaised)
    else Completed
  }

  /** The number of `'all'` plots among the calls. */
  function AllPlots(calls: seq<Call>): (n: nat)
  {
    if calls == [] then 0
    else AllPlots(calls[..|calls| - 1]) + if calls[|calls| - 1].PlotterRunWith? then 1 else 0
  }

  lemma {:induction false} AllPlotsAppend(a: seq<Call>, b: seq<Call>)
    ensures AllPlots(a + b) == AllPlots(a) + AllPlots(b)
    decreases |b|
  {
    if b == [] {
      assert a + b == a;
    } else {
      assert (a + b)[..|a + b| - 1] == a + b[..|b| - 1];
      assert (a + b)[|a + b| - 1] == b[|b| - 1];
      AllPlotsAppend(a, b[..|b| - 1]);
    }
  }

  lemma {:induction false} NoAllPlot(calls: seq<Call>)
    requires forall i :: 0 <= i < |calls| ==> !calls[i].PlotterRunWith?
    ensures AllPlots(calls) == 0
  {
    if calls != [] {
      NoAllPlot(calls[..|calls| - 1]);
    }
  }

  lemma {:induction false} PlotTraceOnlyPlots(items: seq<Item>, world: World)
    ensures forall i :: 0 <= i < |PlotTrace(items, world).0| ==> !PlotTrace(items, world).0[i].PlotterRunWith?
  {
    if items != [] {
      PlotTraceOnlyPlots(items[..|items| - 1], world);
      var item := items[|items| - 1];
      PlotMeasuresStopAtFirstRaise(item.0, item.1, world.storedResultsOf([item.1]), world, |item.1.measures|);
    }
  }

  /**
   * The `'all'` plot happens at most once, as the very last call, and
   * exactly when a plotter is set and no per-experiment plot raised.
   */
  lemma AllPlotLastAndOnlyWithPlotter(reg: Dict<string, Experiment>, plotter: Option<Plotter>, world: World)
    requires reg.Valid()
    ensures var calls := PlotCalls(reg, plotter, world);
      var raised := PlotTrace(SortedItems(reg), world).1;
      AllPlots(calls) == (if plotter.Some? && !raised then 1 else 0) &&
      (plotter.Some? && !raised ==>
        calls[|calls| - 1] == PlotterRunWith(world.storedResultsOf(reg.Values()), "all", 0))
  {
    var (calls, raised) := PlotTrace(SortedItems(reg), world);
    PlotTraceOnlyPlots(SortedItems(reg), world);
    NoAllPlot(calls);
    if plotter.Some? && !raised {
      var tail := AllPlotCalls(reg, world);
      NoAllPlot(tail[..1]);
      AllPlotsAppend(calls, tail);
    }
  }
}
