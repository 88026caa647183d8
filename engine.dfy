/**
 * The `Engine` object: its registry of experiments, the `work` and `done`
 * sets selection leaves behind, the optional plotter, and the pipeline of
 * subcommands. `calls` records, in order, every call the engine makes to its
 * collaborators and every notice it prints.
 *
 * The loops of the engine's methods are the methods ahead of the class; each
 * returns the calls it makes, and the engine appends them to `calls`.
 */
module MetrikaEngine {
  import opened Wrappers
  import opened PyDict
  import opened Sorting
  import opened Experiments
  import opened ExperimentSelection
  import opened Execution
  import opened Output

  /**
   * `for experiment in self.experiments.values(): experiment.restrict(self.arguments)`:
   * every experiment restricted, in registry order.
   */
  method RestrictEach(reg: Dict<string, Experiment>, world: World, args: Arguments)
    returns (restricted: Dict<string, Experiment>, log: seq<Call>)
    requires Registry(reg)
    ensures restricted == RestrictAll(reg, world, args)
    ensures log == RestrictCalls(reg.keys)
  {
    restricted := reg;
    log := [];
    var i := 0;
    while i < |reg.keys|
      invariant 0 <= i <= |reg.keys|
      invariant RestrictedUpTo(reg, restricted, i, world, args)
      invariant log == RestrictCalls(reg.keys[..i])
    {
      var k := reg.keys[i];
      RestrictNext(reg, restricted, i, world, args);
      var experiment := restricted.entries[k];
      restricted := restricted.Put(k, experiment.(instances := world.restrict(experiment, args)));
      log := log + [Restrict(k)];
      i := i + 1;
    }
    RestrictDone(reg, restricted, world, args);
    assert reg.keys[..i] == reg.keys;
  }

  /**
   * `self.work`: with `force` every experiment with all its instances,
   * otherwise what the database answers for the registry's experiments.
   */
  method SelectWork(reg: Dict<string, Experiment>, force: bool, world: World) returns (work: Work, log: seq<Call>)
    requires Registry(reg) && QuerySound(world)
    ensures work == WorkOf(reg, force, world) && log == WorkCalls(reg, force)
  {
    if force {
      work := ForcedWork(reg);
      log := [];
    } else {
      work := world.rejectAlreadyMeasured(reg.Values());
      log := [RejectAlreadyMeasured(reg.Values())];
    }
  }

  /**
   * `{experiment: experiment.run(self.arguments) for experiment in sorted_work}`:
   * runs the experiments in the given order; one whose run raises ends it.
   */
  method RunEach(order: seq<Experiment>, world: World, args: Arguments)
    returns (newResults: Results, raised: bool, log: seq<Call>)
    ensures raised == !AllRunsReturn(order, world, args)
    ensures raised ==> log == RunCalls(order[..FirstRaising(order, world, args) + 1])
    ensures !raised ==> log == RunCalls(order) && newResults == NewResults(order, world, args)
  {
    newResults := map[];
    log := [];
    var i := 0;
    while i < |order|
      invariant 0 <= i <= |order|
      invariant AllRunsReturn(order[..i], world, args)
      invariant newResults == NewResults(order[..i], world, args)
      invariant log == RunCalls(order[..i])
    {
      var outcome := world.run(order[i], args);
      RunStep(order, i, world, args);
      log := log + [RunExperiment(order[i].name)];
      if outcome.None? {
        return newResults, true, log;
      }
      newResults := newResults[order[i] := outcome.value];
      i := i + 1;
    }
    assert order[..i] == order;
    raised := false;
  }

  /**
   * The loop of `report` over the items: for each, the query for its stored
   * results, then its measures' reports.
   */
  method ReportEach(items: seq<Item>, world: World) returns (log: seq<Call>)
    ensures log == ReportTrace(items, world)
  {
    log := [];
    var j := 0;
    while j < |items|
      invariant 0 <= j <= |items|
      invariant log == ReportTrace(items[..j], world)
    {
      var (name, experiment) := items[j];
      var results := world.storedResultsOf([experiment]);
      var measures := ReportMeasuresEach(name, experiment, results, world);
      ReportTraceStep(items, j, world);
      log := log + ([StoredResultsOf([experiment])] + measures);
      j := j + 1;
    }
    assert items[..j] == items;
  }

  /**
   * The inner loop of `report`: one report call per measure by index; one
   * that raises is followed by a notice, and the loop goes on.
   */
  method ReportMeasuresEach(name: string, experiment: Experiment, results: Results, world: World) returns (log: seq<Call>)
    ensures log == ReportMeasures(name, experiment, results, world, |experiment.measures|)
  {
    log := [];
    var i := 0;
    while i < |experiment.measures|
      invariant 0 <= i <= |experiment.measures|
      invariant log == ReportMeasures(name, experiment, results, world, i)
    {
      log := log + [Call.Report(Label(name, experiment.measures[i]), results, i)];
      if world.reportRaises(experiment, i) {
        log := log + [Notice(ReportFailed)];
      }
      i := i + 1;
    }
  }

  /**
   * The loop of `plot` over the items: for each, the query for its stored
   * results, then its measures' plots; a plot that raises ends it.
   */
  method PlotEach(items: seq<Item>, world: World) returns (raised: bool, log: seq<Call>)
    ensures log == PlotTrace(items, world).0
    ensures raised == PlotTrace(items, world).1
  {
    log := [];
    var j := 0;
    while j < |items|
      invariant 0 <= j <= |items|
      invariant log == PlotTrace(items[..j], world).0
      invariant !PlotTrace(items[..j], world).1
    {
      var (name, experiment) := items[j];
      var results := world.storedResultsOf([experiment]);
      var measures, raisedHere := PlotMeasuresEach(name, experiment, results, world);
      PlotTraceStep(items, j, world);
      log := log + ([StoredResultsOf([experiment])] + measures);
      if raisedHere {
        PlotHaltsAfterRaise(items[..j + 1], items[j + 1..], world);
        assert items[..j + 1] + items[j + 1..] == items;
        return true, log;
      }
      j := j + 1;
    }
    assert items[..j] == items;
    raised := false;
  }

  /** The inner loop of `plot`: one plot call per measure by index, up to the first that raises. */
  method PlotMeasuresEach(name: string, experiment: Experiment, results: Results, world: World)
    returns (log: seq<Call>, raised: bool)
    ensures (log, raised) == PlotMeasures(name, experiment, results, world, |experiment.measures|)
  {
    log := [];
    var i := 0;
    while i < |experiment.measures|
      invariant 0 <= i <= |experiment.measures|
      invariant (log, false) == PlotMeasures(name, experiment, results, world, i)
    {
      log := log + [Call.Plot(Label(name, experiment.measures[i]), results, i)];
      if world.plotRaises(experiment, i) {
        PlotMeasuresHaltAfterRaise(name, experiment, results, world, i + 1, |experiment.measures|);
        return log, true;
      }
      i := i + 1;
    }
    raised := false;
  }

  /**
   * The calls of `arguments.func()` once selection is done: `run_command`
   * (`run`, then `report` unless `quiet`, then `plot`, unless `run` raised),
   * `report_command` or `plot_command`.
   */
  function ActionCalls(reg: Dict<string, Experiment>, work: Work, done: seq<Experiment>,
                       plotter: Option<Plotter>, world: World, args: Arguments): (calls: seq<Call>)
    requires reg.Valid() && work.Valid()
  {
    match args.command
    case RunCommand(options) =>
      if RunStatus(work, world, args).Failed? then RunTrace(work, done, world, args)
      else
        RunTrace(work, done, world, args) +
        (if options.quiet then [] else ReportTrace(SortedItems(reg), world)) +
        PlotCalls(reg, plotter, world)
    case ReportCommand(_) => ReportTrace(SortedItems(reg), world)
    case PlotCommand(_) => PlotCalls(reg, plotter, world)
  }

  /** How `arguments.func()` ends: a failing `run` ends `run_command`; `report` never fails. */
  function ActionStatus(reg: Dict<string, Experiment>, work: Work, plotter: Option<Plotter>,
                        world: World, args: Arguments): (s: Status)
    requires reg.Valid() && work.Valid()
  {
    match args.command
    case RunCommand(_) =>
      if RunStatus(work, world, args).Failed? then RunStatus(work, world, args) else PlotStatus(reg, plotter, world)
    case ReportCommand(_) => Completed
    case PlotCommand(_) => PlotStatus(reg, plotter, world)
  }

  lemma AppendThree(a: seq<Call>, b: seq<Call>, c: seq<Call>, d: seq<Call>)
    ensures a + b + c + d == a + (b + c + d)
  {
  }

  class Engine {
    const arguments: Arguments
    var experiments: Dict<string, Experiment>
    var work: Work
    var done: seq<Experiment>
    var plotter: Option<Plotter>
    var calls: seq<Call>

    /** The registry holds each experiment under its own name; `work` is a dictionary. */
    ghost predicate Valid()
      reads this
    {
      Registry(experiments) && work.Valid()
    }

    /** A fresh engine for already parsed arguments: no experiments, no plotter. */
    constructor (arguments: Arguments)
      ensures Valid() && this.arguments == arguments
      ensures experiments == Empty() && work == Empty() && done == []
      ensures plotter == None && calls == []
    {
      this.arguments := arguments;
      experiments := Empty();
      work := Empty();
      done := [];
      plotter := None;
      calls := [];
    }

    /** `organize_experiment`: registers the experiment under its name, replacing any namesake. */
    method OrganizeExperiment(experiment: Experiment) returns (r: Experiment)
      requires Valid()
      modifies this`experiments
      ensures Valid()
      ensures experiments == old(experiments).Put(experiment.name, experiment)
      ensures experiments.entries[experiment.name] == experiment
      ensures forall k :: k in old(experiments.entries) && k != experiment.name ==>
        k in experiments.entries && experiments.entries[k] == old(experiments.entries[k])
      ensures r == experiment
    {
      experiments := experiments.Put(experiment.name, experiment);
      r := experiment;
    }

    /** `set_plotter`. */
    method SetPlotter(configurator: Configurator, name: string, description: string)
      modifies this`plotter
      ensures plotter == Some(Plotter(configurator, name, description))
    {
      plotter := Some(Plotter(configurator, name, description));
    }

    /**
     * `filter_experiments`: narrows the registry to the named experiment (a
     * KeyError, changing nothing, when it is unknown), restricts every
     * remaining experiment in registry order, and computes `work` and `done`.
     */
    method FilterExperiments(world: World, selection: Selection) returns (status: Status)
      requires Valid() && QuerySound(world)
      modifies this`experiments, this`work, this`done, this`calls
      ensures Valid()
      ensures Narrow(old(experiments), selection.experiment).None? ==>
        status == Failed(KeyError(selection.experiment.value)) &&
        experiments == old(experiments) && work == old(work) && done == old(done) && calls == old(calls)
      ensures var narrowed := Narrow(old(experiments), selection.experiment);
        narrowed.Some? ==>
          status == Completed &&
          experiments == RestrictAll(narrowed.value, world, arguments) &&
          work == WorkOf(experiments, selection.force, world) &&
          done == Done(experiments, work) &&
          calls == old(calls) + FilterCalls(narrowed.value, selection.force, world, arguments)
      ensures status.Completed? ==> WithinRegistry(work, experiments)
    {
      if NamesOne(selection.experiment) {
        var name := selection.experiment.value;
        if name !in experiments.entries {
          return Failed(KeyError(name));
        }
        experiments := Dict([name], map[name := experiments.entries[name]]);
      }
      assert experiments == Narrow(old(experiments), selection.experiment).value;
      var restricts, query;
      experiments, restricts := RestrictEach(experiments, world, arguments);
      work, query := SelectWork(experiments, selection.force, world);
      calls := calls + (restricts + query);
      done := Done(experiments, work);
      status := Completed;
    }

    /**
     * `run`: runs the experiments of `work` in name order, stopping at the
     * first that raises, and otherwise saves the new results in one call.
     */
    method Run(world: World) returns (status: Status)
      requires work.Valid()
      modifies this`calls
      ensures calls == old(calls) + RunTrace(work, done, world, arguments)
      ensures status == RunStatus(work, world, arguments)
    {
      status := RunInOrder(RunOrder(work), world);
    }

    /** `run` once `self.work` is sorted into `order`. */
    method RunInOrder(order: seq<Experiment>, world: World) returns (status: Status)
      modifies this`calls
      ensures calls == old(calls) + RunSteps(order, done, world, arguments)
      ensures status == OrderStatus(order, world, arguments)
    {
      // the two notices, then the query for the stored results of `done`
      var log := RunPreamble(done);
      var stored := world.storedResultsOf(done);
      var newResults, raised, runs := RunEach(order, world, arguments);
      if raised {
        calls := calls + (log + runs);
        return Failed(RunRaised(order[FirstRaising(order, world, arguments)].name));
      }
      // `all_results` is computed and never used, as in the source.
      var allResults := Merge(stored, newResults);
      calls := calls + (log + (runs + [Save(newResults)]));
      status := if world.saveRaises(newResults) then Failed(SaveRaised) else Completed;
    }

    /**
     * `report`: every experiment by name and every measure by index; a
     * report that raises is followed by a notice, and the walk goes on.
     */
    method Report(world: World)
      requires Valid()
      modifies this`calls
      ensures calls == old(calls) + ReportTrace(SortedItems(experiments), world)
    {
      var log := ReportEach(SortedItems(experiments), world);
      calls := calls + log;
    }

    /**
     * `plot`: like `report` with plot calls, except that a plot that raises
     * ends `plot`; then, when a plotter is set, the `'all'` plot.
     */
    method Plot(world: World) returns (status: Status)
      requires Valid()
      modifies this`calls
      ensures calls == old(calls) + PlotCalls(experiments, plotter, world)
      ensures status == PlotStatus(experiments, plotter, world)
    {
      var raised, log := PlotEach(SortedItems(experiments), world);
      calls := calls + log;
      if raised {
        return Failed(PlotRaised);
      }
      if plotter.Some? {
        var results := world.storedResultsOf(experiments.Values());
        calls := calls + [StoredResultsOf(experiments.Values())];
        calls := calls + [PlotterRunWith(results, "all", 0)];
        status := if world.plotterRaises(plotter.value, results) then Failed(PlotterRaised) else Completed;
      } else {
        status := Completed;
      }
    }

    /**
     * `run_command`: `run`, then `report` unless `quiet`, then `plot`; an
     * exception from `run` ends the command before either.
     */
    method RunCommand(world: World) returns (status: Status)
      requires Valid() && arguments.command.RunCommand?
      modifies this`calls
      ensures var runStatus := RunStatus(work, world, arguments);
        runStatus.Failed? ==>
          status == runStatus && calls == old(calls) + RunTrace(work, done, world, arguments)
      ensures RunStatus(work, world, arguments).Completed? ==>
        status == PlotStatus(experiments, plotter, world) &&
        calls == old(calls) + (RunTrace(work, done, world, arguments) +
          (if arguments.command.options.quiet then [] else ReportTrace(SortedItems(experiments), world)) +
          PlotCalls(experiments, plotter, world))
    {
      ghost var before := calls;
      status := Run(world);
      if status.Failed? {
        return;
      }
      ghost var reports: seq<Call> := [];
      if !arguments.command.options.quiet {
        Report(world);
        reports := ReportTrace(SortedItems(experiments), world);
      }
      assert calls == before + RunTrace(work, done, world, arguments) + reports;
      status := Plot(world);
      AppendThree(before, RunTrace(work, done, world, arguments), reports, PlotCalls(experiments, plotter, world));
    }

    /**
     * `go` as written: `filter_experiments` first reads `arguments.experiment`,
     * which only the `run` subcommand defines, so for `report` and `plot` it
     * raises AttributeError before any call and changes nothing.
     */
    method Go(world: World) returns (status: Status)
      requires Valid() && QuerySound(world)
      modifies this`experiments, this`work, this`done, this`calls
      ensures Valid()
      ensures !arguments.command.RunCommand? ==>
        status == Failed(AttributeError("experiment")) &&
        experiments == old(experiments) && work == old(work) && done == old(done) && calls == old(calls)
      ensures arguments.command.RunCommand? ==>
        var selection := Selection(arguments.command.options.experiment, arguments.command.options.force);
        var narrowed := Narrow(old(experiments), selection.experiment);
        (narrowed.None? ==>
          status == Failed(KeyError(selection.experiment.value)) &&
          experiments == old(experiments) && work == old(work) && done == old(done) && calls == old(calls)) &&
        (narrowed.Some? ==>
          experiments == RestrictAll(narrowed.value, world, arguments) &&
          work == WorkOf(experiments, selection.force, world) &&
          done == Done(experiments, work) &&
          calls == old(calls) + FilterCalls(narrowed.value, selection.force, world, arguments) +
            ActionCalls(experiments, work, done, plotter, world, arguments) &&
          status == ActionStatus(experiments, work, plotter, world, arguments))
    {
      if SelectionAsWritten(arguments.command).None? {
        return Failed(AttributeError("experiment"));
      }
      status := GoCorrected(world);
    }

    /**
     * `go` with the selection options report and plot evidently mean: the
     * whole registry, without forcing. Selection, then `run_command`,
     * `report_command` or `plot_command`, chosen by the subcommand.
     */
    method GoCorrected(world: World) returns (status: Status)
      requires Valid() && QuerySound(world)
      modifies this`experiments, this`work, this`done, this`calls
      ensures Valid()
      ensures var selection := SelectionOf(arguments.command);
        var narrowed := Narrow(old(experiments), selection.experiment);
        (narrowed.None? ==>
          status == Failed(KeyError(selection.experiment.value)) &&
          experiments == old(experiments) && work == old(work) && done == old(done) && calls == old(calls)) &&
        (narrowed.Some? ==>
          experiments == RestrictAll(narrowed.value, world, arguments) &&
          work == WorkOf(experiments, selection.force, world) &&
          done == Done(experiments, work) &&
          calls == old(calls) + FilterCalls(narrowed.value, selection.force, world, arguments) +
            ActionCalls(experiments, work, done, plotter, world, arguments) &&
          status == ActionStatus(experiments, work, plotter, world, arguments))
    {
      status := FilterExperiments(world, SelectionOf(arguments.command));
      if status.Failed? {
        return;
      }
      match arguments.command
      case RunCommand(_) =>
        status := RunCommand(world);
      case ReportCommand(_) =>
        Report(world);
      case PlotCommand(_) =>
        status := Plot(world);
    }
  }
}
