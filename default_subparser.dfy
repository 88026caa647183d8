/**
 * `set_default_subparser`: the hook that makes `run` the default
 * subcommand. Unless the command line asks for help, or already names one of
 * the parser's subcommands, it inserts the default subcommand's name into
 * the argument list: at index 1 of `sys.argv`, or at index 0 of the list
 * handed to `parse_args` when one is given. The decision always looks at
 * `sys.argv`, even when another list is given.
 */
module DefaultSubparser {
  import opened Wrappers

  /** An action of the parser: a subparsers action with its subcommand names, or any other. */
  datatype ParserAction = SubParsersAction(names: seq<string>) | OtherAction

  /** What the hook does to the two argument lists, or the error it raises. */
  datatype Outcome = Rewritten(argv: seq<string>, args: Option<seq<string>>) | AttributeError

  /** A Python list of strings, updated in place. */
  class ArgList {
    var items: seq<string>

    constructor (items: seq<string>)
      ensures this.items == items
    {
      this.items := items;
    }

    /** `list.insert(i, x)`. */
    method Insert(i: nat, x: string)
      modifies this
      ensures items == PyInsert(old(items), i, x)
    {
      items := PyInsert(items, i, x);
    }
  }

  /**
   * `list.insert(i, x)` for a non-negative `i` on a value: `x` lands at `i`,
   * or at the end when `i` is past it, and every other element keeps its order.
   */
  function PyInsert(s: seq<string>, i: nat, x: string): (r: seq<string>)
    ensures |r| == |s| + 1
    ensures var at := if i <= |s| then i else |s|;
      r[at] == x && r[..at] == s[..at] && r[at + 1..] == s[at..]
    ensures multiset(r) == multiset(s) + multiset{x}
  {
    var at := if i <= |s| then i else |s|;
    assert s == s[..at] + s[at..];
    s[..at] + [x] + s[at..]
  }

  /** `sys.argv[1:]`. */
  function Tail(argv: seq<string>): (t: seq<string>)
    ensures forall a :: a in t <==> exists i :: 1 <= i < |argv| && argv[i] == a
  {
    if argv == [] then [] else argv[1..]
  }

  predicate IsHelpFlag(arg: string)
  {
    arg == "-h" || arg == "--help"
  }

  /** Some argument after the program name is `-h` or `--help`. */
  predicate HelpRequested(argv: seq<string>)
  {
    exists a :: a in Tail(argv) && IsHelpFlag(a)
  }

  /** The action is a subparsers action one of whose subcommand names is among `args`. */
  predicate NamesSubcommand(action: ParserAction, args: seq<string>)
  {
    action.SubParsersAction? && exists n :: n in action.names && n in args
  }

  /** Some argument after the program name is a subcommand name. */
  predicate SubparserNamed(actions: seq<ParserAction>, argv: seq<string>)
  {
    exists k :: 0 <= k < |actions| && NamesSubcommand(actions[k], Tail(argv))
  }

  /**
   * The hook on values: `subparsers` is the parser's subparsers group (None
   * when `add_subparsers` was never called, so that reading its actions
   * raises), `argv` is `sys.argv` and `args` the list handed in, if any.
   */
  function DefaultApplied(subparsers: Option<seq<ParserAction>>, name: string, argv: seq<string>, args: Option<seq<string>>): (r: Outcome)
    ensures r.AttributeError? <==> !HelpRequested(argv) && subparsers.None?
    ensures r.Rewritten? ==> (r.args.Some? <==> args.Some?)
    ensures r.Rewritten? && args.Some? ==> r.argv == argv
    ensures r.Rewritten? && args.None? ==> |r.argv| <= |argv| + 1
  {
    if HelpRequested(argv) then Rewritten(argv, args)
    else if subparsers.None? then AttributeError
    else if SubparserNamed(subparsers.value, argv) then Rewritten(argv, args)
    else if args.None? then Rewritten(PyInsert(argv, 1, name), None)
    else Rewritten(argv, Some(PyInsert(args.value, 0, name)))
  }

  /** The `for ... else` scan of `sys.argv[1:]` for a help flag; it breaks at the first. */
  method ScanForHelp(argv: seq<string>) returns (help: bool)
    ensures help <==> HelpRequested(argv)
  {
    var tail := Tail(argv);
    var i := 0;
    while i < |tail|
      invariant 0 <= i <= |tail|
      invariant forall j :: 0 <= j < i ==> !IsHelpFlag(tail[j])
    {
      if IsHelpFlag(tail[i]) {
        return true;
      }
      i := i + 1;
    }
    help := false;
  }

  /**
   * The scan of every subparsers action's subcommand names for one that is
   * in `sys.argv[1:]`; other actions are skipped, and the scan does not stop
   * at the first match.
   */
  method ScanForSubcommand(actions: seq<ParserAction>, argv: seq<string>) returns (found: bool)
    ensures found <==> SubparserNamed(actions, argv)
  {
    var tail := Tail(argv);
    found := false;
    for k := 0 to |actions|
      invariant found <==> exists m :: 0 <= m < k && NamesSubcommand(actions[m], tail)
    {
      if actions[k].SubParsersAction? {
        var names := actions[k].names;
        ghost var before := found;
        for j := 0 to |names|
          invariant found <==> before || exists m :: 0 <= m < j && names[m] in tail
        {
          if names[j] in tail {
            found := true;
          }
        }
        assert found <==> before || NamesSubcommand(actions[k], tail);
      }
    }
  }

  /**
   * `set_default_subparser(self, name, args)`: `sysArgv` is `sys.argv` and
   * `args`, when not null, the list handed in; it may be `sys.argv` itself.
   * `raised` is the AttributeError of a parser without subparsers.
   */
  method SetDefaultSubparser(subparsers: Option<seq<ParserAction>>, name: string, sysArgv: ArgList, args: ArgList?)
    returns (raised: bool)
    modifies sysArgv, args
    ensures var r := DefaultApplied(subparsers, name, old(sysArgv.items), if args == null then None else Some(old(args.items)));
      (raised <==> r.AttributeError?) &&
      (raised ==> sysArgv.items == old(sysArgv.items) && (args != null ==> args.items == old(args.items))) &&
      (r.Rewritten? && args == null ==> sysArgv.items == r.argv) &&
      (r.Rewritten? && args != null ==> args.items == r.args.value) &&
      (args != null && args != sysArgv ==> sysArgv.items == old(sysArgv.items))
  {
    var help := ScanForHelp(sysArgv.items);
    if help {
      return false;
    }
    if subparsers.None? {
      return true;
    }
    var found := ScanForSubcommand(subparsers.value, sysArgv.items);
    if !found {
      if args == null {
        sysArgv.Insert(1, name);
      } else {
        args.Insert(0, name);
      }
    }
    raised := false;
  }

  /** Asking for help leaves both lists as they were. */
  lemma HelpLeavesArgumentsAlone(subparsers: Option<seq<ParserAction>>, name: string, argv: seq<string>, args: Option<seq<string>>)
    requires HelpRequested(argv)
    ensures DefaultApplied(subparsers, name, argv, args) == Rewritten(argv, args)
  {
  }

  /**
   * The hook inserts exactly when neither help nor a subcommand name is on
   * `sys.argv`, and then exactly one element, the default name: at index 1
   * of `sys.argv` (at its end when it is empty) when no list is given, else
   * at index 0 of the given list, leaving `sys.argv` alone.
   */
  lemma {:induction false} InsertsDefaultOnce(subparsers: Option<seq<ParserAction>>, name: string, argv: seq<string>, args: Option<seq<string>>)
    requires subparsers.Some?
    ensures var r := DefaultApplied(subparsers, name, argv, args);
      var inserts := !HelpRequested(argv) && !SubparserNamed(subparsers.value, argv);
      r.Rewritten? &&
      (!inserts ==> r == Rewritten(argv, args)) &&
      (inserts && args.None? ==>
        r.args == None && |r.argv| == |argv| + 1 && multiset(r.argv) == multiset(argv) + multiset{name} &&
        (|argv| == 0 ==> r.argv == [name]) &&
        (|argv| > 0 ==> r.argv == [argv[0], name] + argv[1..])) &&
      (inserts && args.Some? ==>
        r.argv == argv && r.args == Some([name] + args.value) &&
        multiset(r.args.value) == multiset(args.value) + multiset{name})
  {
    var r := DefaultApplied(subparsers, name, argv, args);
    if !HelpRequested(argv) && !SubparserNamed(subparsers.value, argv) {
      if args.None? {
        if |argv| > 0 {
          assert r.argv == r.argv[..1] + [name] + r.argv[2..];
        }
      } else {
        assert r.args.value == [name] + r.args.value[1..];
      }
    }
  }

  /**
   * Only `sys.argv` decides: with a list given, whether it receives the
   * default name does not depend on the list, and `sys.argv` never changes.
   */
  lemma DetectionReadsSysArgv(subparsers: Option<seq<ParserAction>>, name: string, argv: seq<string>, a: seq<string>, b: seq<string>)
    requires subparsers.Some?
    ensures var ra := DefaultApplied(subparsers, name, argv, Some(a));
      var rb := DefaultApplied(subparsers, name, argv, Some(b));
      ra.argv == argv && rb.argv == argv &&
      (ra.args == Some(a) <==> rb.args == Some(b))
  {
  }

  /**
   * Consequently a second call with the list the first one produced inserts
   * the default name again.
   */
  lemma {:induction false} RepeatedCallInsertsAgain(subparsers: Option<seq<ParserAction>>, name: string, argv: seq<string>, args: seq<string>)
    requires subparsers.Some? && !HelpRequested(argv) && !SubparserNamed(subparsers.value, argv)
    ensures var once := DefaultApplied(subparsers, name, argv, Some(args));
      once.Rewritten? &&
      DefaultApplied(subparsers, name, argv, once.args) == Rewritten(argv, Some([name, name] + args))
  {
    InsertsDefaultOnce(subparsers, name, argv, Some(args));
    InsertsDefaultOnce(subparsers, name, argv, Some([name] + args));
    assert [name] + ([name] + args) == [name, name] + args;
  }

  /**
   * On `sys.argv`, when the default is one of the subcommand names and
   * `sys.argv` holds at least the program name, a second call changes nothing.
   */
  lemma {:induction false} SysArgvIdempotent(subparsers: Option<seq<ParserAction>>, name: string, argv: seq<string>, k: nat)
    requires subparsers.Some? && k < |subparsers.value|
    requires subparsers.value[k].SubParsersAction? && name in subparsers.value[k].names
    requires |argv| >= 1
    ensures var once := DefaultApplied(subparsers, name, argv, None);
      once.Rewritten? && DefaultApplied(subparsers, name, once.argv, None) == once
  {
    var once := DefaultApplied(subparsers, name, argv, None);
    InsertsDefaultOnce(subparsers, name, argv, None);
    if once.argv != argv {
      assert once.argv[1] == name;
      assert name in Tail(once.argv);
      assert NamesSubcommand(subparsers.value[k], Tail(once.argv));
    }
  }
}
