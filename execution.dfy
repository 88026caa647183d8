/**
 * Execution (`Engine.run`): the experiments of `work` run one after another
 * in ascending name order, their results are collected, merged over the
 * stored results of `done`, and saved in one batch after the last run. A run
 * that raises ends everything: no later run and no save.
 */
module Execution {
  import opened Wrappers
  import opened PyDict
  import opened Sorting
  import opened Experiments
  import opened ExperimentSelection

  function NameOf(e: Experiment): string { e.name }

  function Names(es: seq<Experiment>): (ns: seq<string>)
    ensures |ns| == |es| && forall i :: 0 <= i < |es| ==> ns[i] == es[i].name
  {
    seq(|es|, i requires 0 <= i < |es| => es[i].name)
  }

  /** `sorted(self.work, key=lambda exp: exp.name)`. */
  function RunOrder(work: Work): (order: seq<Experiment>)
    ensures multiset(order) == multiset(work.keys)
    ensures SortedBy(order, NameOf)
  {
    SortBy(work.keys, NameOf)
  }

  /** The run order holds exactly the experiments of `work`. */
  lemma RunOrderCoversWork(work: Work)
    requires work.Valid()
    ensures forall e :: e in RunOrder(work) <==> e in work.entries
  {
    var order := RunOrder(work);
    assert forall e :: e in order <==> e in multiset(work.keys);
  }

  /**
   * When `work` holds only registry experiments, the run order visits each
   * of them exactly once, in strictly ascending name order.
   */
  lemma RunOrderAscending(reg: Dict<string, Experiment>, work: Work)
    requires Registry(reg) && work.Valid() && WithinRegistry(work, reg)
    ensures forall e :: e in RunOrder(work) <==> e in work.entries
    ensures Distinct(RunOrder(work))
    ensures forall i, j :: 0 <= i < j < |RunOrder(work)| ==> StrLt(RunOrder(work)[i].name, RunOrder(work)[j].name)
  {
    var order := RunOrder(work);
    assert forall e :: e in order <==> e in multiset(work.keys);
    PermutationKeepsDistinct(order, work.keys);
    forall i, j | 0 <= i < j < |order| ensures StrLt(order[i].name, order[j].name) {
      assert StrLe(NameOf(order[i]), NameOf(order[j]));
      assert order[i] in order && order[j] in order;
      ValueAtOwnName(reg, order[i]);
      ValueAtOwnName(reg, order[j]);
    }
  }

  /** No experiment in `order` raises when run. */
  predicate AllRunsReturn(order: seq<Experiment>, world: World, args: Arguments)
  {
    forall i :: 0 <= i < |order| ==> world.run(order[i], args).Some?
  }

  /** The position of the first experiment in `order` whose run raises. */
  function FirstRaising(order: seq<Experiment>, world: World, args: Arguments): (f: nat)
    requires !AllRunsReturn(order, world, args)
    ensures f < |order| && world.run(order[f], args).None?
    ensures forall i :: 0 <= i < f ==> world.run(order[i], args).Some?
  {
    if world.run(order[0], args).None? then 0
    else 1 + FirstRaising(order[1..], world, args)
  }

  /**
   * `{experiment: experiment.run(self.arguments) for experiment in sorted_work}`:
   * exactly the experiments run, each with the result its run returned.
   */
  function NewResults(order: seq<Experiment>, world: World, args: Arguments): (r: Results)
    requires AllRunsReturn(order, world, args)
    ensures forall e :: e in r <==> e in order
    ensures forall e :: e in r ==> world.run(e, args) == Some(r[e])
  {
    if order == [] then map[]
    else
      var last := order[|order| - 1];
      NewResults(order[..|order| - 1], world, args)[last := world.run(last, args).value]
  }

  /** One more experiment run: its call follows, and either it raises first or its result joins the rest. */
  lemma RunStep(order: seq<Experiment>, i: nat, world: World, args: Arguments)
    requires i < |order| && AllRunsReturn(order[..i], world, args)
    ensures RunCalls(order[..i + 1]) == RunCalls(order[..i]) + [RunExperiment(order[i].name)]
    ensures world.run(order[i], args).None? ==>
      !AllRunsReturn(order, world, args) && FirstRaising(order, world, args) == i
    ensures world.run(order[i], args).Some? ==>
      AllRunsReturn(order[..i + 1], world, args) &&
      NewResults(order[..i + 1], world, args) == NewResults(order[..i], world, args)[order[i] := world.run(order[i], args).value]
  {
    assert order[..i + 1][..i] == order[..i];
  }

  /**
   * `all_results = dict(old_results); all_results.update(new_results)`: every
   * key of either, and a key of both takes its new result.
   */
  function Merge(stored: Results, measured: Results): (all: Results)
    ensures all.Keys == stored.Keys + measured.Keys
    ensures forall e :: e in measured ==> all[e] == measured[e]
    ensures forall e :: e in stored && e !in measured ==> all[e] == stored[e]
  {
    stored + measured
  }

  /** The `run` calls made for `order`, in that order. */
  function RunCalls(order: seq<Experiment>): (calls: seq<Call>)
  {
    if order == [] then [] else RunCalls(order[..|order| - 1]) + [RunExperiment(order[|order| - 1].name)]
  }

  /** The calls `run` makes after its preamble, running the experiments in `order`. */
  function RunBody(order: seq<Experiment>, world: World, args: Arguments): (calls: seq<Call>)
  {
    if AllRunsReturn(order, world, args) then RunCalls(order) + [Save(NewResults(order, world, args))]
    else RunCalls(order[..FirstRaising(order, world, args) + 1])
  }

  /** The calls `run` makes when it runs the experiments in `order`. */
  function RunSteps(order: seq<Experiment>, done: seq<Experiment>, world: World, args: Arguments): (calls: seq<Call>)
  {
    RunPreamble(done) + RunBody(order, world, args)
  }

  /** The calls `run` makes: two notices, the stored-results query, the runs, the save. */
  function RunTrace(work: Work, done: seq<Experiment>, world: World, args: Arguments): (calls: seq<Call>)
  {
    RunSteps(RunOrder(work), done, world, args)
  }

  /** How `run` ends: the first run that raises, else the save raising, else normally. */
  function RunStatus(work: Work, world: World, args: Arguments): (s: Status)
  {
    OrderStatus(RunOrder(work), world, args)
  }

  /** How `run` ends when it runs the experiments in `order`. */
  function OrderStatus(order: seq<Experiment>, world: World, args: Arguments): (s: Status)
  {
    if !AllRunsReturn(order, world, args) then Failed(RunRaised(order[FirstRaising(order, world, args)].name))
    else if world.saveRaises(NewResults(order, world, args)) then Failed(SaveRaised)
    else Completed
  }

  /** The names of the experiments run, in the order of the calls. */
  function Runs(calls: seq<Call>): (names: seq<string>)
  {
    if calls == [] then []
    else Runs(calls[..|calls| - 1]) + if calls[|calls| - 1].RunExperiment? then [calls[|calls| - 1].experiment] else []
  }

  /** The number of `save` calls. */
  function Saves(calls: seq<Call>): (n: nat)
  {
    if calls == [] then 0
    else Saves(calls[..|calls| - 1]) + if calls[|calls| - 1].Save? then 1 else 0
  }

  lemma {:induction false} RunsAppend(a: seq<Call>, b: seq<Call>)
    ensures Runs(a + b) == Runs(a) + Runs(b)
    ensures Saves(a + b) == Saves(a) + Saves(b)
    decreases |b|
  {
    if b == [] {
      assert a + b == a;
    } else {
      assert (a + b)[..|a + b| - 1] == a + b[..|b| - 1];
      assert (a + b)[|a + b| - 1] == b[|b| - 1];
      RunsAppend(a, b[..|b| - 1]);
    }
  }

  lemma {:induction false} RunCallsRunInOrder(order: seq<Experiment>)
    ensures Runs(RunCalls(order)) == Names(order)
    ensures Saves(RunCalls(order)) == 0
  {
    if order != [] {
      var prefix := order[..|order| - 1];
      var last := [RunExperiment(order[|order| - 1].name)];
      assert last[..0] == [];
      RunsAppend(RunCalls(prefix), last);
      RunCallsRunInOrder(prefix);
    }
  }

  /** The calls `run` makes before its first experiment. */
  function RunPreamble(done: seq<Experiment>): (calls: seq<Call>)
  {
    [Notice(ExperimentsToRun), Notice(ExperimentsSkipped), StoredResultsOf(done)]
  }

  lemma {:induction false} NeitherRunsNorSaves(calls: seq<Call>)
    requires forall i :: 0 <= i < |calls| ==> !calls[i].RunExperiment? && !calls[i].Save?
    ensures Runs(calls) == [] && Saves(calls) == 0
  {
    if calls != [] {
      NeitherRunsNorSaves(calls[..|calls| - 1]);
    }
  }

  lemma PreambleNeitherRunsNorSaves(done: seq<Experiment>)
    ensures Runs(RunPreamble(done)) == [] && Saves(RunPreamble(done)) == 0
  {
    NeitherRunsNorSaves(RunPreamble(done));
  }

  lemma RunBodySavesOnceLast(order: seq<Experiment>, world: World, args: Arguments)
    requires AllRunsReturn(order, world, args)
    ensures var calls := RunBody(order, world, args);
      Runs(calls) == Names(order) && Saves(calls) == 1 &&
      calls[|calls| - 1] == Save(NewResults(order, world, args))
  {
    var save := [Save(NewResults(order, world, args))];
    assert save[..0] == [];
    RunCallsRunInOrder(order);
    RunsAppend(RunCalls(order), save);
  }

  lemma RunBodyRaisingSavesNothing(order: seq<Experiment>, world: World, args: Arguments)
    requires !AllRunsReturn(order, world, args)
    ensures var calls := RunBody(order, world, args);
      Runs(calls) == Names(order[..FirstRaising(order, world, args) + 1]) && Saves(calls) == 0
  {
    RunCallsRunInOrder(order[..FirstRaising(order, world, args) + 1]);
  }

  /** The preamble adds neither runs nor saves to those of the body. */
  lemma RunStepsCount(order: seq<Experiment>, done: seq<Experiment>, world: World, args: Arguments)
    ensures var calls := RunSteps(order, done, world, args);
      var body := RunBody(order, world, args);
      Runs(calls) == Runs(body) && Saves(calls) == Saves(body) &&
      (body != [] ==> calls[|calls| - 1] == body[|body| - 1])
  {
    PreambleNeitherRunsNorSaves(done);
    RunsAppend(RunPreamble(done), RunBody(order, world, args));
  }

  /**
   * What `run` promises when no run raises: every experiment of `work` runs,
   * in the sorted order, and then comes exactly one save, the last call,
   * holding a result for exactly the experiments of `work`.
   */
  lemma RunSavesOnceAfterEveryRun(work: Work, done: seq<Experiment>, world: World, args: Arguments)
    requires work.Valid() && AllRunsReturn(RunOrder(work), world, args)
    ensures var calls := RunTrace(work, done, world, args);
      var order := RunOrder(work);
      Runs(calls) == Names(order) &&
      Saves(calls) == 1 &&
      calls[|calls| - 1] == Save(NewResults(order, world, args)) &&
      NewResults(order, world, args).Keys == work.entries.Keys
  {
    var order := RunOrder(work);
    RunBodySavesOnceLast(order, world, args);
    RunStepsCount(order, done, world, args);
    RunOrderCoversWork(work);
    assert NewResults(order, world, args).Keys == work.entries.Keys;
  }

  /**
   * What `run` promises when a run raises: the experiments run are those of
   * the sorted order up to and including the first that raises, and nothing
   * is saved.
   */
  lemma RunRaisingSavesNothing(work: Work, done: seq<Experiment>, world: World, args: Arguments)
    requires !AllRunsReturn(RunOrder(work), world, args)
    ensures var calls := RunTrace(work, done, world, args);
      var order := RunOrder(work);
      Runs(calls) == Names(order[..FirstRaising(order, world, args) + 1]) &&
      Saves(calls) == 0
  {
    RunBodyRaisingSavesNothing(RunOrder(work), world, args);
    RunStepsCount(RunOrder(work), done, world, args);
  }

  /**
   * When `work` holds only registry experiments, the experiments `run`
   * runs have strictly ascending names, whether or not one raises.
   */
  lemma RunsAscendByName(reg: Dict<string, Experiment>, work: Work, done: seq<Experiment>, world: World, args: Arguments)
    requires Registry(reg) && work.Valid() && WithinRegistry(work, reg)
    ensures var runs := Runs(RunTrace(work, done, world, args));
      forall i, j :: 0 <= i < j < |runs| ==> StrLt(runs[i], runs[j])
  {
    var order := RunOrder(work);
    RunOrderAscending(reg, work);
    if AllRunsReturn(order, world, args) {
      RunSavesOnceAfterEveryRun(work, done, world, args);
    } else {
      RunRaisingSavesNothing(work, done, world, args);
    }
  }
}
