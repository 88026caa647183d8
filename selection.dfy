/**
 * Experiment selection (`Engine.filter_experiments`): narrowing the registry
 * to one named experiment, restricting every remaining experiment, and
 * splitting it into the experiments still to run (`work`) and those already
 * measured (`done`).
 */
module ExperimentSelection {
  import opened Wrappers
  import opened PyDict
  import opened Experiments

  /** `self.experiments`: a dictionary holding each experiment under its own name. */
  ghost predicate Registry(reg: Dict<string, Experiment>)
  {
    reg.Valid() && forall k :: k in reg.entries ==> reg.entries[k].name == k
  }

  /** `self.work`: experiments mapped to the instances to run. */
  type Work = Dict<Experiment, seq<Instance>>

  /** Every experiment of `work` is one of the registry's experiments. */
  ghost predicate WithinRegistry(work: Work, reg: Dict<string, Experiment>)
    requires reg.Valid()
  {
    forall e :: e in work.entries ==> e in reg.Values()
  }

  lemma ValueAtOwnName(reg: Dict<string, Experiment>, e: Experiment)
    requires Registry(reg) && e in reg.Values()
    ensures e.name in reg.entries && reg.entries[e.name] == e
  {
    var i :| 0 <= i < |reg.Values()| && reg.Values()[i] == e;
  }

  /**
   * The selection options as the source reads them: `arguments.experiment`
   * and `arguments.force` exist only in the namespace of the `run`
   * subcommand; for `report` and `plot` reading them raises AttributeError,
   * which None stands for.
   */
  function SelectionAsWritten(c: Command): (r: Option<Selection>)
    ensures r.Some? <==> c.RunCommand?
  {
    match c
    case RunCommand(o) => Some(Selection(o.experiment, o.force))
    case _ => None
  }

  /** Reading the selection options fails for every `report` and `plot` command line. */
  lemma ReportAndPlotLackSelection(restrict: Option<string>)
    ensures SelectionAsWritten(ReportCommand(restrict)) == None
    ensures SelectionAsWritten(PlotCommand(restrict)) == None
  {
  }

  /**
   * The selection options the model uses: as the source reads them for
   * `run`, and for `report` and `plot` no single experiment and no forcing.
   */
  function SelectionOf(c: Command): (s: Selection)
    ensures c.RunCommand? ==> SelectionAsWritten(c) == Some(s)
    ensures !c.RunCommand? ==> s.experiment == None && !s.force
  {
    match c
    case RunCommand(o) => Selection(o.experiment, o.force)
    case _ => Selection(None, false)
  }

  /**
   * With the corrected options, `report` and `plot` select the whole
   * registry without a KeyError, and consult the database for `work`.
   */
  lemma ReportAndPlotKeepRegistry(reg: Dict<string, Experiment>, c: Command)
    requires Registry(reg) && !c.RunCommand?
    ensures Narrow(reg, SelectionOf(c).experiment) == Some(reg)
    ensures !SelectionOf(c).force
  {
  }

  /**
   * `if self.arguments.experiment:`. The option is None when not given, and
   * the empty string, given as `-x ""`, is falsy too: neither narrows.
   */
  predicate NamesOne(name: Option<string>)
  {
    name.Some? && name.value != ""
  }

  /**
   * `self.experiments = {name: self.experiments[name]}` when a name is given:
   * None is the KeyError of an unknown name.
   */
  function Narrow(reg: Dict<string, Experiment>, name: Option<string>): (r: Option<Dict<string, Experiment>>)
    requires Registry(reg)
    ensures !NamesOne(name) ==> r == Some(reg)
    ensures NamesOne(name) ==> (r.Some? <==> name.value in reg.entries)
    ensures NamesOne(name) && r.Some? ==> r.value.keys == [name.value]
    ensures r.Some? ==> Registry(r.value)
    ensures r.Some? ==> forall k :: k in r.value.entries ==> k in reg.entries && r.value.entries[k] == reg.entries[k]
  {
    if !NamesOne(name) then Some(reg)
    else if name.value in reg.entries then Some(Dict([name.value], map[name.value := reg.entries[name.value]]))
    else None
  }

  /** An experiment after `experiment.restrict(arguments)`: only its instances change. */
  function Restricted(e: Experiment, world: World, args: Arguments): (r: Experiment)
    ensures r.name == e.name && r.measures == e.measures
    ensures r.instances == world.restrict(e, args)
  {
    e.(instances := world.restrict(e, args))
  }

  /** The registry after restricting every experiment in it. */
  function RestrictAll(reg: Dict<string, Experiment>, world: World, args: Arguments): (r: Dict<string, Experiment>)
    requires Registry(reg)
    ensures Registry(r) && r.keys == reg.keys
    ensures forall k :: k in r.entries ==> r.entries[k] == Restricted(reg.entries[k], world, args)
  {
    Dict(reg.keys, map k | k in reg.entries :: Restricted(reg.entries[k], world, args))
  }

  /** `r` is `reg` with the experiments under its first `i` keys restricted. */
  ghost predicate RestrictedUpTo(reg: Dict<string, Experiment>, r: Dict<string, Experiment>, i: nat, world: World, args: Arguments)
    requires Registry(reg) && i <= |reg.keys|
  {
    Registry(r) && r.keys == reg.keys &&
    forall k :: k in r.entries ==>
      r.entries[k] == if k in reg.keys[..i] then Restricted(reg.entries[k], world, args) else reg.entries[k]
  }

  lemma RestrictNext(reg: Dict<string, Experiment>, r: Dict<string, Experiment>, i: nat, world: World, args: Arguments)
    requires Registry(reg) && i < |reg.keys| && RestrictedUpTo(reg, r, i, world, args)
    ensures reg.keys[i] in r.entries
    ensures RestrictCalls(reg.keys[..i + 1]) == RestrictCalls(reg.keys[..i]) + [Restrict(reg.keys[i])]
    ensures RestrictedUpTo(reg, r.Put(reg.keys[i], Restricted(r.entries[reg.keys[i]], world, args)), i + 1, world, args)
  {
    var k := reg.keys[i];
    assert k in reg.entries;
    assert reg.keys[..i + 1][..i] == reg.keys[..i];
    RestrictOneMore(reg, r, i, world, args);
  }

  lemma RestrictOneMore(reg: Dict<string, Experiment>, r: Dict<string, Experiment>, i: nat, world: World, args: Arguments)
    requires Registry(reg) && i < |reg.keys| && RestrictedUpTo(reg, r, i, world, args)
    ensures reg.keys[i] in r.entries
    ensures RestrictedUpTo(reg, r.Put(reg.keys[i], Restricted(r.entries[reg.keys[i]], world, args)), i + 1, world, args)
  {
    var k := reg.keys[i];
    assert k in reg.entries;
    assert k !in reg.keys[..i];
    assert reg.keys[..i + 1] == reg.keys[..i] + [k];
    var r' := r.Put(k, Restricted(r.entries[k], world, args));
    forall x | x in r'.entries
      ensures r'.entries[x] == if x in reg.keys[..i + 1] then Restricted(reg.entries[x], world, args) else reg.entries[x]
    {
      if x != k {
        assert x in reg.keys[..i + 1] <==> x in reg.keys[..i];
      }
    }
  }

  lemma RestrictDone(reg: Dict<string, Experiment>, r: Dict<string, Experiment>, world: World, args: Arguments)
    requires Registry(reg) && RestrictedUpTo(reg, r, |reg.keys|, world, args)
    ensures r == RestrictAll(reg, world, args)
  {
    assert reg.keys[..|reg.keys|] == reg.keys;
    assert r.entries == RestrictAll(reg, world, args).entries;
  }

  /** The `restrict` calls made for the given keys, in that order. */
  function RestrictCalls(keys: seq<string>): (calls: seq<Call>)
  {
    if keys == [] then [] else RestrictCalls(keys[..|keys| - 1]) + [Restrict(keys[|keys| - 1])]
  }

  lemma ValuesDistinct(reg: Dict<string, Experiment>)
    requires Registry(reg)
    ensures forall i, j :: 0 <= i < j < |reg.keys| ==> reg.Values()[i] != reg.Values()[j]
  {
  }

  /**
   * `{experiment: experiment.instances() for experiment in
   * self.experiments.values()}`: with `force`, every experiment is to run
   * with all of its instances.
   */
  function ForcedWork(reg: Dict<string, Experiment>): (w: Work)
    requires Registry(reg)
    ensures w.Valid() && WithinRegistry(w, reg)
    ensures w.keys == reg.Values()
    ensures forall e :: e in w.entries ==> w.entries[e] == e.instances
  {
    var vs := reg.Values();
    ValuesDistinct(reg);
    Dict(vs, map e | e in vs :: e.instances)
  }

  /**
   * `name in self.work`. The work dictionary is keyed by experiments, and
   * whether a name matches an experiment key depends on the experiment's
   * equality and hashing, which are not part of this model. The model takes
   * a name to be in `work` exactly when some experiment key has that name.
   */
  predicate Listed(name: string, work: Work)
  {
    exists e :: e in work.entries && e.name == name
  }

  /** The experiments of `vs`, in order, whose name is not in `work`. */
  function Unlisted(vs: seq<Experiment>, work: Work): (r: seq<Experiment>)
    ensures forall x :: x in r <==> x in vs && !Listed(x.name, work)
    ensures |r| <= |vs|
  {
    if vs == [] then []
    else if Listed(vs[0].name, work) then Unlisted(vs[1..], work)
    else [vs[0]] + Unlisted(vs[1..], work)
  }

  /** `self.done = [x for x in self.experiments.values() if x.name not in self.work]`. */
  function Done(reg: Dict<string, Experiment>, work: Work): (done: seq<Experiment>)
    requires reg.Valid()
    ensures forall x :: x in done <==> x in reg.Values() && !Listed(x.name, work)
  {
    Unlisted(reg.Values(), work)
  }

  /**
   * `self.work`: every experiment with `force`, otherwise the database's
   * answer to which of the experiments still lack results.
   */
  function WorkOf(reg: Dict<string, Experiment>, force: bool, world: World): (w: Work)
    requires Registry(reg) && QuerySound(world)
    ensures w.Valid() && WithinRegistry(w, reg)
    ensures force ==> w == ForcedWork(reg)
    ensures !force ==> w == world.rejectAlreadyMeasured(reg.Values())
  {
    if force then ForcedWork(reg) else world.rejectAlreadyMeasured(reg.Values())
  }

  /** The database query for `work`, made only without `force`. */
  function WorkCalls(reg: Dict<string, Experiment>, force: bool): (calls: seq<Call>)
    requires reg.Valid()
  {
    if force then [] else [RejectAlreadyMeasured(reg.Values())]
  }

  /** The calls `filter_experiments` makes once the registry is narrowed to `reg`. */
  function FilterCalls(reg: Dict<string, Experiment>, force: bool, world: World, args: Arguments): (calls: seq<Call>)
    requires Registry(reg)
  {
    RestrictCalls(reg.keys) + WorkCalls(RestrictAll(reg, world, args), force)
  }

  /**
   * `work` and `done` split the registry: each of its experiments is in
   * exactly one of them, and neither holds anything else.
   */
  lemma {:induction false} WorkAndDonePartition(reg: Dict<string, Experiment>, work: Work)
    requires Registry(reg) && WithinRegistry(work, reg)
    ensures forall e :: e in reg.Values() ==> (e in work.entries <==> e !in Done(reg, work))
    ensures forall e :: e in work.entries || e in Done(reg, work) ==> e in reg.Values()
  {
    forall e | e in reg.Values() ensures e in work.entries <==> e !in Done(reg, work) {
      if Listed(e.name, work) {
        var w :| w in work.entries && w.name == e.name;
        ValueAtOwnName(reg, w);
        ValueAtOwnName(reg, e);
      }
    }
  }

  /** With `force`, nothing counts as already measured. */
  lemma ForcedWorkLeavesNothingDone(reg: Dict<string, Experiment>)
    requires Registry(reg)
    ensures Done(reg, ForcedWork(reg)) == []
  {
    var work := ForcedWork(reg);
    forall x | x in reg.Values() ensures Listed(x.name, work) {
      assert x in work.entries;
    }
    AllListedNoneUnlisted(reg.Values(), work);
  }

  lemma {:induction false} AllListedNoneUnlisted(vs: seq<Experiment>, work: Work)
    requires forall x :: x in vs ==> Listed(x.name, work)
    ensures Unlisted(vs, work) == []
  {
    if vs != [] {
      assert vs[0] in vs;
      AllListedNoneUnlisted(vs[1..], work);
    }
  }
}
