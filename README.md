# Metrika engine, modelled in Dafny

Metrika is a measurement runner. Its `Engine` (`metrika/engine.py`) keeps a
registry of experiments keyed by name. It narrows and restricts that registry
according to the command line, then decides which experiments still need
measuring (`work`) and which are already measured (`done`). It runs the
pending experiments in name order and saves their results in one batch. It
then reports and plots every experiment's measures, optionally followed by a
final plot over everything, labelled `'all'`. A module-level hook,
`set_default_subparser`, makes a subcommand the default by inserting its name
into the argument list. A second helper, `sorted_items`, sorts a dictionary's
items by key.

The model has these files:

- `dicts.dfy` (`PyDict`): insertion-ordered Python dictionaries.
- `sorting.dfy` (`Sorting`): Python's string order, `sorted(..., key=...)` and `sorted_items`.
- `experiments.dfy` (`Experiments`): the engine's collaborators, as values and oracles.
- `selection.dfy` (`ExperimentSelection`): `filter_experiments` on values.
- `execution.dfy` (`Execution`): `run` on values.
- `output.dfy` (`Output`): `report` and `plot` on values.
- `engine.dfy` (`MetrikaEngine`): the `Engine` class. Its fields are the registry, `work`, `done`, the plotter and a record `calls` of every call made to a collaborator. Its methods update these step by step, and each is proved against the value-level functions above.
- `default_subparser.dfy` (`DefaultSubparser`): `set_default_subparser`. `sys.argv` and the optional argument list are `ArgList` objects, updated in place; they may be the same object.

The collaborators are fixed by a `World` value:

- the experiments' `restrict` and `run`;
- the database's `reject_already_measured_in`, `stored_results_of` and `save`;
- each experiment's `report` and `plot`;
- the plotter's `run_with`.

The `World` gives their answers, and whether each call raises. Every
property below therefore holds for every possible behaviour of the
collaborators. The one exception is `QuerySound`: the database's answer
to `reject_already_measured_in` must be a dictionary over experiments it
was asked about.

## Model

| member | source | states |
|---|---|---|
| PyDict.Empty | metrika/engine.py:16 | the registry starts as an empty, well-formed dictionary |
| PyDict.Dict.Put | metrika/engine.py:23 | assigning a key keeps the dictionary well formed: the entry is replaced in place when the key exists, else appended |
| PyDict.Dict.Values | metrika/engine.py:54 | `values()` lists the entries in key order |
| PyDict.Dict.Items | metrika/engine.py:172 | `items()` lists the (key, value) pairs in key order |
| Sorting.SortBy | metrika/engine.py:70 | `sorted(..., key=...)` returns a permutation of its input whose keys are in Python string order |
| Sorting.SortedItems | metrika/engine.py:171-172 | `sorted_items` is a permutation of the dictionary's items, and its keys strictly ascend |
| MetrikaEngine.Engine.constructor | metrika/engine.py:12-19 | a new engine has an empty registry and no plotter |
| MetrikaEngine.Engine.OrganizeExperiment | metrika/engine.py:21-24 | the experiment is registered under its own name, replacing a namesake; every other entry is untouched; the experiment is returned |
| MetrikaEngine.Engine.SetPlotter | metrika/engine.py:100-101 | the plotter is set from the three arguments |
| ExperimentSelection.NamesOne | metrika/engine.py:50 | the truth test on `arguments.experiment`: a name is given and is not the empty string |
| ExperimentSelection.Narrow | metrika/engine.py:50-52 | with a non-empty name, the registry becomes that one entry, or fails (KeyError) when the name is unknown; without a name, or with the empty name, it is unchanged |
| ExperimentSelection.Restricted | metrika/engine.py:55 | `restrict` keeps an experiment's name and measures and gives it the instances the experiment keeps |
| ExperimentSelection.RestrictAll | metrika/engine.py:54-55 | restricting keeps the names and order of the registry and replaces each experiment by its restricted self |
| MetrikaEngine.RestrictEach | metrika/engine.py:54-55 | the loop restricts every experiment, one `restrict` call per key in registry order |
| ExperimentSelection.ForcedWork | metrika/engine.py:57-58 | with `force`, `work` maps exactly the registry's experiments to their instances |
| ExperimentSelection.WorkOf | metrika/engine.py:57-60 | `work` is a dictionary over registry experiments: the forced work, or the database's answer |
| MetrikaEngine.SelectWork | metrika/engine.py:57-60 | computes `work`, querying the database only without `force` |
| ExperimentSelection.Listed | metrika/engine.py:62 | `name in self.work`, read as: some experiment key of `work` has that name |
| ExperimentSelection.Done | metrika/engine.py:62 | `done` holds exactly the registry experiments whose name is not in `work` |
| ExperimentSelection.WorkAndDonePartition | metrika/engine.py:57-62 | every registry experiment is in exactly one of `work` and `done`, and neither holds anything else |
| ExperimentSelection.ForcedWorkLeavesNothingDone | metrika/engine.py:57-62 | with `force`, `done` is empty |
| ExperimentSelection.SelectionAsWritten | metrika/engine.py:50-57 | the selection options can be read exactly for a `run` command line; for `report` and `plot` the read raises AttributeError |
| ExperimentSelection.ReportAndPlotLackSelection | metrika/engine.py:50-57 | for `report` and `plot` command lines, the options selection reads do not exist (see Findings) |
| ExperimentSelection.SelectionOf | metrika/engine.py:50-57 | the corrected options agree with the source for `run`; for `report` and `plot` they select no single experiment and no forcing |
| ExperimentSelection.ReportAndPlotKeepRegistry | metrika/engine.py:50-52 | with the corrected options, `report` and `plot` keep the whole registry and never raise KeyError |
| MetrikaEngine.Engine.FilterExperiments | metrika/engine.py:49-62 | an unknown non-empty name raises KeyError and changes nothing; otherwise the registry is narrowed and restricted, `work` and `done` are set, and the restrict calls (plus the database query without `force`) are recorded in order |
| Execution.RunOrder | metrika/engine.py:70 | the run order is a permutation of `work`'s experiments, sorted by name |
| Execution.RunOrderCoversWork | metrika/engine.py:70 | the run order holds exactly the experiments of `work` |
| Execution.RunOrderAscending | metrika/engine.py:70 | for work drawn from the registry, the run order has no repeats and strictly ascending names |
| Execution.FirstRaising | metrika/engine.py:71 | locates the first experiment whose run raises; every earlier run returned |
| Execution.NewResults | metrika/engine.py:71 | `new_results` has exactly the experiments run as keys, each with the result its run returned |
| MetrikaEngine.RunEach | metrika/engine.py:71 | runs the experiments in order; it stops after the first that raises, else returns `new_results` |
| Execution.Merge | metrika/engine.py:73-74 | `all_results` has the keys of both; on a shared key the new result wins, else the stored one stays |
| Execution.RunBody | metrika/engine.py:70-75 | the calls after the preamble: every run in order then the save, or the runs up to and including the first that raises |
| Execution.RunTrace | metrika/engine.py:64-75 | the calls of `run`: the two notices, the stored-results query for `done`, then `RunBody` over the sorted work |
| Execution.OrderStatus | metrika/engine.py:71-75 | how `run` ends over a run order: the first raising run, else a raising save, else normally |
| Execution.RunStatus | metrika/engine.py:64-75 | how `run` ends: `OrderStatus` of the sorted work |
| Execution.RunBodySavesOnceLast | metrika/engine.py:71-75 | when no run raises: every experiment runs in order, then exactly one save comes last |
| Execution.RunBodyRaisingSavesNothing | metrika/engine.py:71-75 | when a run raises: the runs stop at it and nothing is saved |
| Execution.RunStepsCount | metrika/engine.py:66-69 | the two notices and the stored-results query add no run and no save |
| Execution.RunSavesOnceAfterEveryRun | metrika/engine.py:64-75 | when no run raises, `run` runs exactly `work`'s experiments in name order, then saves once, as its last call, results for exactly the experiments of `work` |
| Execution.RunRaisingSavesNothing | metrika/engine.py:64-75 | when a run raises, `run` runs the sorted experiments up to and including it, and never saves |
| Execution.RunsAscendByName | metrika/engine.py:70-71 | the experiments `run` runs have strictly ascending names, whether or not one raises |
| MetrikaEngine.Engine.Run | metrika/engine.py:64-75 | the calls made and the outcome are those of the sorted run order |
| MetrikaEngine.Engine.RunInOrder | metrika/engine.py:66-75 | notices and stored-results query, then the runs, then the save (unless a run raised); the status reports the first raising run, else a raising save |
| Output.ReportMeasures | metrika/engine.py:80-84 | the calls for an experiment's first `n` measures: each report, followed by a notice when it raised |
| Output.ReportTrace | metrika/engine.py:77-84 | the calls of `report` over the sorted items: per experiment its stored-results query, then its measures' reports |
| Output.MeasureReports | metrika/engine.py:80-82 | measure `i` is reported as `i`, under the label `name + ' ' + measure_name` |
| Output.ReportAttemptsEveryMeasure | metrika/engine.py:80-84 | within an experiment every measure is reported in index order, whichever reports raise |
| Output.ReportExperimentAttempts | metrika/engine.py:79-84 | for each experiment: its stored-results query, then every measure's report |
| Output.ReportIsolatesFailures | metrika/engine.py:77-84 | leaving out the failure notices, `report` makes the same calls whichever reports raise |
| MetrikaEngine.ReportMeasuresEach | metrika/engine.py:80-84 | the inner loop makes one report per measure; a raising report is followed by a notice and the loop goes on |
| MetrikaEngine.ReportEach | metrika/engine.py:78-84 | the outer loop walks the sorted items: a stored-results query, then that experiment's reports |
| MetrikaEngine.Engine.Report | metrika/engine.py:77-84 | `report` walks the registry sorted by name |
| Output.PlotMeasures | metrika/engine.py:90-91 | the plot calls for an experiment's first `n` measures and whether one raised; nothing follows a raising plot |
| Output.PlotTrace | metrika/engine.py:88-91 | the per-experiment calls of `plot` over the sorted items, and whether a plot raised; nothing follows a raise |
| Output.PlotCalls | metrika/engine.py:86-96 | the calls of `plot`: `PlotTrace`, then, when no plot raised and a plotter is set, the query over every experiment and the `'all'` plot |
| Output.PlotStatus | metrika/engine.py:86-96 | how `plot` ends: a raising plot, else a raising `run_with` when a plotter is set, else normally |
| Output.MeasurePlots | metrika/engine.py:90-91 | measure `i` is plotted as `i`, under the label `name + ' ' + measure_name` |
| Output.PlotMeasuresStopAtFirstRaise | metrika/engine.py:90-91 | within an experiment plots go in index order and stop right after the first that raises |
| Output.PlotMeasuresHaltAfterRaise | metrika/engine.py:90-91 | once a plot raised, later measures add nothing |
| Output.PlotHaltsAfterRaise | metrika/engine.py:88-91 | once a plot raised, later experiments add nothing |
| MetrikaEngine.PlotMeasuresEach | metrika/engine.py:90-91 | the inner loop plots each measure in order, up to the first that raises |
| MetrikaEngine.PlotEach | metrika/engine.py:88-91 | the outer loop walks the sorted items: a stored-results query, then plots; a raise ends it |
| Output.AllPlotLastAndOnlyWithPlotter | metrika/engine.py:94-96 | the `'all'` plot happens at most once, as the very last call, exactly when a plotter is set and no experiment's plot raised |
| MetrikaEngine.Engine.Plot | metrika/engine.py:86-98 | the per-experiment plots, then, with a plotter and no raise, the query over every experiment and the `'all'` plot; the status says which raised |
| MetrikaEngine.Engine.RunCommand | metrika/engine.py:30-35 | a raising `run` ends the command; otherwise `report` follows unless `quiet`, and `plot` always follows |
| MetrikaEngine.ActionCalls | metrika/engine.py:28-41 | the calls of `arguments.func()`: for `run`, the run trace, then (unless `run` raised) the report trace unless `quiet` and the plot calls; for `report` and `plot`, their traces |
| MetrikaEngine.ActionStatus | metrika/engine.py:28-41 | how `arguments.func()` ends: a raising `run` ends `run_command`, `report` always completes, `plot` as `PlotStatus` |
| MetrikaEngine.Engine.Go | metrika/engine.py:26-28 | as written: for `report` and `plot`, AttributeError on `experiment` with no call and no state change; for `run`, an unknown name is a KeyError that changes nothing, else selection followed by `run_command` |
| MetrikaEngine.Engine.GoCorrected | metrika/engine.py:26-41 | with the corrected selection: an unknown name is a KeyError that changes nothing; otherwise selection, then `run_command`, `report_command` or `plot_command` by subcommand |
| DefaultSubparser.PyInsert | metrika/engine.py:166-168 | `list.insert` adds exactly the one element at the index (at the end past it) and keeps every other element in order |
| DefaultSubparser.ArgList.Insert | metrika/engine.py:166-168 | inserting updates the list in place |
| DefaultSubparser.Tail | metrika/engine.py:152 | `sys.argv[1:]` holds exactly the arguments after the program name; it is empty for an empty `sys.argv` |
| DefaultSubparser.DefaultApplied | metrika/engine.py:151-168 | the hook on values: AttributeError exactly when no help is asked and the parser has no subparsers; with a list given, `sys.argv` is left as it was |
| DefaultSubparser.ScanForHelp | metrika/engine.py:152-154 | the scan finds a help flag exactly when `-h` or `--help` follows the program name |
| DefaultSubparser.ScanForSubcommand | metrika/engine.py:156-161 | the scan is positive exactly when some subparsers action has a subcommand name after the program name |
| DefaultSubparser.SetDefaultSubparser | metrika/engine.py:143-168 | the lists change as the hook on values says; `sys.argv` is untouched when another list is given; a parser without subparsers raises only when no help is asked |
| DefaultSubparser.HelpLeavesArgumentsAlone | metrika/engine.py:152-155 | asking for help leaves both lists unchanged |
| DefaultSubparser.InsertsDefaultOnce | metrika/engine.py:162-168 | the name is inserted iff neither help nor a subcommand name is present; exactly one element, at index 1 of `sys.argv` or index 0 of the given list |
| DefaultSubparser.DetectionReadsSysArgv | metrika/engine.py:160-168 | with a list given, whether it is changed does not depend on its contents, and `sys.argv` never changes |
| DefaultSubparser.RepeatedCallInsertsAgain | metrika/engine.py:160-168 | with a list given, a second call inserts the name a second time |
| DefaultSubparser.SysArgvIdempotent | metrika/engine.py:159-166 | on a non-empty `sys.argv`, when the name is a subcommand name, a second call changes nothing |

## Left out

- `parse_arguments` (lines 103-136) is not modelled: argparse, the usage message and `sys.exit(1)` for a short command line. The engine receives the parsed `Arguments`. `Command` mirrors the three subcommands and the options each defines.
- `machine_name` (lines 138-140) is not modelled: host-name lookup is I/O. The testbed is a plain field of `Arguments`.
- The `Database`, `Experiment` and `Plotter` classes are not part of this model. They, and the delegations `existing_results_of` and `reject_already_measured_in` (lines 43-47), appear only as `World` oracles and recorded `Call`s.
- `restrict`, `reject_already_measured_in` and `stored_results_of` are taken never to raise. Raising is modelled for `run`, `save`, `report`, `plot` and `run_with`.
- `restrict` is taken to change only an experiment's instances. The experiment objects are values, so there is no aliasing between the registry, `work` and `done`.
- Experiment equality and hashing are not modelled. `x.name not in self.work` (line 62) is read as "no key of `work` has that name" (`ExperimentSelection.Listed`).
- `QuerySound` is the one assumption about the database: `reject_already_measured_in` answers with a well-formed dictionary over experiments it was asked about.
- The text of the printed messages is not modelled. Each print is a `Notice` in the call record.
- `report_command` and `plot_command` (lines 37-41) are the `report` and `plot` branches of `GoCorrected` and `ActionCalls`. `go` dispatches on the `Command` value rather than calling a stored function.
- The installation of `set_default_subparser` onto `argparse.ArgumentParser` (line 14) is not modelled. Nothing in the file calls the hook, so it is modelled on its own.
- `PyInsert`: negative indices to `list.insert` are not modelled, as the hook only uses 0 and 1.
- `_name_parser_map`'s keys are a sequence of subcommand names.
- `Sorting.SortBy`: stability is not stated. Every use sorts distinct keys.
- `Merge`: `all_results` is computed and never used in `run`, and so it is in the model.
- The loops of `filter_experiments`, `run`, `report` and `plot` are methods next to the class. Each returns the calls it makes, and the engine method appends them to `calls` in one step rather than call by call.
- Exceptions are `Failed` statuses or an `AttributeError` outcome, not control transfer.

## Findings

| source | as written | input that shows it | evidently intended | confidence | as-written member | corrected member |
|---|---|---|---|---|---|---|
| metrika/engine.py:50-57 | `filter_experiments` reads `arguments.experiment` and `arguments.force`. Only the `run` subcommand defines them (lines 113-114). | `metrika report` or `metrika plot`: `go` calls `filter_experiments`, which raises AttributeError before reporting or plotting. | `report` and `plot` select every experiment, without forcing. | high, not executed | MetrikaEngine.Engine.Go | MetrikaEngine.Engine.GoCorrected |
