/**
 * The engine's collaborators, which are not part of this model: the
 * experiment objects, the results database and the plotter. They appear here
 * only as values and as the answers they give. A `World` fixes those answers,
 * so every collaborator behaves as a function of the arguments it is called
 * with; `Call` records each call the engine makes to one of them.
 */
module Experiments {
  import opened Wrappers
  import opened PyDict

  /** One parameterisation of an experiment; its contents are not modelled. */
  type Instance(==, !new)
  /** A measurement result returned by an experiment's run; opaque. */
  type Sample(==, !new)
  /** Whatever `set_plotter` is given to configure the plotter; opaque. */
  type Configurator

  /**
   * An experiment: its unique name, the instances it will run (narrowed by
   * `restrict`) and the names of the measures it reports and plots, in order.
   */
  datatype Experiment = Experiment(name: string, instances: seq<Instance>, measures: seq<string>)

  /** A result set as the database returns it, keyed by experiment. */
  type Results = map<Experiment, Sample>

  datatype Plotter = Plotter(configurator: Configurator, name: string, description: string)

  /** Options of the `run` subcommand. */
  datatype RunOptions = RunOptions(
    invocations: int,
    experiment: Option<string>,
    force: bool,
    quiet: bool,
    showOutput: bool,
    hideErrors: bool,
    restrict: Option<string>)

  /** The subcommand chosen on the command line, with its own options. */
  datatype Command =
    | RunCommand(options: RunOptions)
    | ReportCommand(restrict: Option<string>)
    | PlotCommand(restrict: Option<string>)

  /** The parsed command line: global options and the subcommand. */
  datatype Arguments = Arguments(verbose: bool, bench: Option<string>, testbed: string, command: Command)

  /** The options experiment selection reads: a single name to keep, and `force`. */
  datatype Selection = Selection(experiment: Option<string>, force: bool)

  datatype Error =
    | KeyError(key: string)
    | AttributeError(attribute: string)
    | RunRaised(experiment: string)
    | SaveRaised
    | PlotRaised
    | PlotterRaised

  datatype Status = Completed | Failed(error: Error)

  datatype NoticeKind = ExperimentsToRun | ExperimentsSkipped | ReportFailed

  /** A call the engine makes to a collaborator, or a notice it prints. */
  datatype Call =
    | Restrict(experiment: string)
    | RejectAlreadyMeasured(experiments: seq<Experiment>)
    | StoredResultsOf(experiments: seq<Experiment>)
    | RunExperiment(experiment: string)
    | Save(results: Results)
    | Report(title: string, results: Results, measure: nat)
    | Plot(title: string, results: Results, measure: nat)
    | PlotterRunWith(results: Results, title: string, index: nat)
    | Notice(kind: NoticeKind)

  /**
   * The collaborators' answers. `restrict` gives the instances an experiment
   * keeps; `run` gives None when the experiment's run raises; the `...Raises`
   * fields say whether that call raises.
   */
  datatype World = World(
    restrict: (Experiment, Arguments) -> seq<Instance>,
    rejectAlreadyMeasured: seq<Experiment> -> Dict<Experiment, seq<Instance>>,
    storedResultsOf: seq<Experiment> -> Results,
    run: (Experiment, Arguments) -> Option<Sample>,
    saveRaises: Results -> bool,
    reportRaises: (Experiment, nat) -> bool,
    plotRaises: (Experiment, nat) -> bool,
    plotterRaises: (Plotter, Results) -> bool)

  /**
   * The one thing assumed of the database's `reject_already_measured_in`: it
   * answers with a dictionary whose keys are among the experiments it was given.
   */
  ghost predicate QuerySound(world: World)
  {
    forall vs: seq<Experiment> ::
      world.rejectAlreadyMeasured(vs).Valid() &&
      forall e :: e in world.rejectAlreadyMeasured(vs).entries ==> e in vs
  }

  /** The label a measure is reported and plotted under: `name + ' ' + measure_name`. */
  function Label(name: string, measure: string): string
  {
    name + " " + measure
  }
}
