/** The Program of clino.go: validation of the command tree, dispatch of one invocation to
    the help page, to a flag error or to the command's action, and the help request itself.
    The flag parser and the action are parameters: `parse` stands for flag.FlagSet.Parse over
    the flags registered so far, `act` for the Run method of the command reached. */
module Clino {
  import opened Wrappers
  import opened Commands
  import opened Exit
  import opened Resolve
  import opened Flags
  import opened Help

  /** What flag.FlagSet.Parse does with the tokens after the breadcrumb: the arguments left
      after the flags, a request for help (-help or -h), or a parse error. */
  datatype ParseResult = Parsed(residual: seq<string>) | HelpRequested | ParseFailed(err: Error)

  /** How Program.Run ends: a panic with its message, or a returned error (None for nil). */
  datatype Outcome = Panicked(msg: string) | Returned(err: Option<Error>)

  /** An invocation's outcome and the lines it wrote to Program.Output. */
  datatype Invocation = Invocation(outcome: Outcome, written: seq<string>)

  /** Where runCommand sends an invocation. */
  datatype Route = ToHelp | ToFlagError(err: Error) | ToAction(cmd: Command, residual: seq<string>)

  /** The node runCommand loads and its breadcrumb: a leading "help" is skipped, then the
      non-flag prefix of the arguments is walked from the root. */
  function Loaded(root: Command, args: seq<string>): (res: (Command, seq<string>))
    ensures |res.1| <= |args|
    ensures !(|args| != 0 && args[0] == "help") ==> res.1 <= args
  {
    Walk(root, NonFlagPrefix(SkipHelpCommand(args)))
  }

  /** The flags registered when the invocation reaches a node: the global flags first, then
      the flags of the node loaded. */
  function Registry(global: seq<FlagDef>, cmd: Command): (fs: seq<FlagDef>)
    ensures |fs| == |global| + |LocalFlags(cmd)|
    ensures fs[..|global|] == global
    ensures fs[|global|..] == LocalFlags(cmd)
  {
    global + LocalFlags(cmd)
  }

  /** The decisions of runCommand: help when asked for or when nothing runnable was reached;
      otherwise the tokens after the breadcrumb go to the flag parser, whose error is returned
      as it is and whose residual goes to the action. */
  function Dispatch(root: Command, global: seq<FlagDef>, args: seq<string>,
                    parse: (seq<FlagDef>, seq<string>) -> ParseResult): (route: Route)
    ensures |args| != 0 && args[0] == "help" ==> route == ToHelp
    ensures route.ToAction? ==> route.cmd == Loaded(root, args).0 && IsRunnable(route.cmd)
  {
    var (cmd, trail) := Loaded(root, args);
    if (|args| == 0 && !IsRunnable(root)) || (|args| != 0 && args[0] == "help") then ToHelp
    else if |trail| == 0 && !IsRunnable(root) then ToHelp
    else if !IsRunnable(cmd) then ToHelp
    else
      match parse(Registry(global, cmd), args[|trail|..])
      case HelpRequested => ToHelp
      case ParseFailed(e) => ToFlagError(e)
      case Parsed(residual) => ToAction(cmd, residual)
  }

  /** setUsableHelp: the node is runnable when it implements Runnable, and usable (has a usage
      line and a flags block) when it is runnable or a parent. */
  function SetUsableHelp(cmd: Command, h: Helper): (r: Helper)
    ensures r.runnable <==> IsRunnable(cmd)
    ensures r.usable <==> IsRunnable(cmd) || cmd.sub.Parent?
    ensures r.(runnable := h.runnable, usable := h.usable) == h
  {
    h.(runnable := IsRunnable(cmd), usable := IsRunnable(cmd) || cmd.sub.Parent?)
  }

  /** The arguments runHelp works on: without a leading "help". */
  function HelpArgs(args: seq<string>): seq<string>
  {
    if |args| >= 1 && args[0] == "help" then args[1..] else args
  }

  /** The helper runHelp builds: the node reached by the non-flag prefix of the arguments,
      its Long and Foot texts, its children, the root's name as binary, the breadcrumb,
      and the flags registered so far. */
  function HelpFor(root: Command, args: seq<string>, fs: seq<FlagDef>): (h: Helper)
    ensures h.binary == root.name && h.fs == fs && h.args == HelpArgs(args)
    ensures h.trail <= NonFlagPrefix(h.args)
    ensures h.runnable ==> h.usable
  {
    var a := HelpArgs(args);
    var (cmd, trail) := Walk(root, NonFlagPrefix(a));
    SetUsableHelp(cmd, Helper(cmd.long, cmd.foot, GetSubcommands(cmd), root.name, trail, a, false, false, fs))
  }

  /** A help request: the page is written and the helper's error returned. */
  function HelpInvocation(root: Command, args: seq<string>, fs: seq<FlagDef>): Invocation
  {
    var h := HelpFor(root, args, fs);
    Invocation(Returned(h.Result()), h.Lines())
  }

  /** runCommand, once the tree is known to be sound. */
  function Respond(root: Command, global: seq<FlagDef>, args: seq<string>,
                   parse: (seq<FlagDef>, seq<string>) -> ParseResult,
                   act: (Command, seq<string>) -> Option<Error>): (inv: Invocation)
    ensures !inv.outcome.Panicked?
    ensures Dispatch(root, global, args, parse) != ToHelp ==> inv.written == []
  {
    match Dispatch(root, global, args, parse)
    case ToHelp => HelpInvocation(root, args, Registry(global, Loaded(root, args).0))
    case ToFlagError(e) => Invocation(Returned(Some(e)), [])
    case ToAction(cmd, residual) => Invocation(Returned(act(cmd, residual)), [])
  }

  /** Respond by the route Dispatch chooses. */
  lemma RespondByRoute(root: Command, global: seq<FlagDef>, args: seq<string>,
                       parse: (seq<FlagDef>, seq<string>) -> ParseResult,
                       act: (Command, seq<string>) -> Option<Error>)
    ensures var inv := Respond(root, global, args, parse, act);
      match Dispatch(root, global, args, parse)
      case ToHelp => inv == HelpInvocation(root, args, Registry(global, Loaded(root, args).0))
      case ToFlagError(e) => inv == Invocation(Returned(Some(e)), [])
      case ToAction(cmd, residual) => inv == Invocation(Returned(act(cmd, residual)), [])
  {
  }

  /** Program.Run: a missing root and a tree with two siblings of the same name panic before
      any argument is looked at; otherwise runCommand decides. */
  function Execute(root: Option<Command>, global: seq<FlagDef>, args: seq<string>,
                   parse: (seq<FlagDef>, seq<string>) -> ParseResult,
                   act: (Command, seq<string>) -> Option<Error>): (inv: Invocation)
    ensures inv.outcome.Panicked? <==> root.None? || FirstDuplicate(root.value, [root.value.name]).Some?
    ensures inv.outcome.Panicked? ==> inv.written == []
  {
    match root
    case None => Invocation(Panicked("root command not implemented"), [])
    case Some(r) =>
      match FirstDuplicate(r, [r.name])
      case Some(path) => Invocation(Panicked(DuplicateMessage(path)), [])
      case None => Respond(r, global, args, parse, act)
  }

  // ---- properties of one invocation ----

  /** Without arguments the root itself is loaded, with an empty breadcrumb. */
  lemma EmptyArgsResolveToRoot(root: Command)
    ensures Loaded(root, []) == (root, [])
  {
    assert NonFlagPrefix([]) == [];
  }

  /** The help page is chosen when "help" is the first argument, when no arguments or no
      known command name were given to a root that is not runnable, and when the command
      reached is not runnable. Otherwise the tokens after the breadcrumb go to the flag
      parser over the global flags followed by the command's own flags: a help request goes
      to the help page, an error is returned as it is, and the residual goes to the command
      reached. The breadcrumb and the parsed tokens together make up the arguments. */
  lemma DispatchRules(root: Command, global: seq<FlagDef>, args: seq<string>,
                      parse: (seq<FlagDef>, seq<string>) -> ParseResult)
    ensures var (cmd, trail) := Loaded(root, args);
      var route := Dispatch(root, global, args, parse);
      var asked := |args| != 0 && args[0] == "help";
      var nothing := (|args| == 0 || |trail| == 0) && !IsRunnable(root);
      (asked || nothing || !IsRunnable(cmd) ==> route == ToHelp) &&
      (!asked && !nothing && IsRunnable(cmd) ==>
        trail + args[|trail|..] == args &&
        var result := parse(global + LocalFlags(cmd), args[|trail|..]);
        (route == ToHelp <==> result == HelpRequested) &&
        (route.ToFlagError? <==> result.ParseFailed?) &&
        (route.ToFlagError? ==> route.err == result.err) &&
        (route.ToAction? <==> result.Parsed?) &&
        (route.ToAction? ==> route.cmd == cmd && route.residual == result.residual))
  {
    var (cmd, trail) := Loaded(root, args);
    if !(|args| != 0 && args[0] == "help") {
      assert trail <= args;
      assert trail + args[|trail|..] == args;
    }
  }

  /** The help page describes the node whose flags were registered: runHelp walks the same
      path as runCommand loaded. */
  lemma HelpShowsLoadedNode(root: Command, args: seq<string>, fs: seq<FlagDef>)
    ensures var (cmd, trail) := Loaded(root, args);
      var h := HelpFor(root, args, fs);
      h.trail == trail && h.commands == GetSubcommands(cmd) &&
      h.long == cmd.long && h.foot == cmd.foot &&
      h.binary == root.name && h.fs == fs &&
      h.args == SkipHelpCommand(args)
  {
    assert HelpArgs(args) == SkipHelpCommand(args);
  }

  /** A missing root and a tree in which some sibling group repeats a name panic, with the
      same message and without output, whatever the arguments; every other tree does not. */
  lemma TreeProblemsPanic(root: Option<Command>, global: seq<FlagDef>, args: seq<string>,
                          parse: (seq<FlagDef>, seq<string>) -> ParseResult,
                          act: (Command, seq<string>) -> Option<Error>)
    ensures var inv := Execute(root, global, args, parse, act);
      (inv.outcome.Panicked? <==> root.None? || !UniqueSiblings(root.value)) &&
      (root.None? ==> inv == Invocation(Panicked("root command not implemented"), [])) &&
      (root.Some? && UniqueSiblings(root.value) ==> inv == Respond(root.value, global, args, parse, act)) &&
      (root.Some? && !UniqueSiblings(root.value) ==>
        var path := FirstDuplicate(root.value, [root.value.name]).value;
        ReportsDuplicate(root.value, [root.value.name], path) &&
        inv == Invocation(Panicked("command implemented multiple times: '" + Join(path, " ") + "'"), []))
  {
    if root.Some? {
      FirstDuplicateNone(root.value, [root.value.name]);
      if !UniqueSiblings(root.value) {
        FirstDuplicatePath(root.value, [root.value.name]);
      }
    }
  }

  /** A tree without repeated sibling names goes to runCommand. */
  lemma SoundTreeResponds(root: Command, global: seq<FlagDef>, args: seq<string>,
                          parse: (seq<FlagDef>, seq<string>) -> ParseResult,
                          act: (Command, seq<string>) -> Option<Error>)
    requires UniqueSiblings(root)
    ensures Execute(Some(root), global, args, parse, act) == Respond(root, global, args, parse, act)
  {
    FirstDuplicateNone(root, [root.name]);
  }

  /** A first argument naming no child of a root that is a parent but not runnable ends in
      "unknown command" naming the binary and that argument, after the root's help page. */
  lemma UnknownTopLevelCommand(root: Command, global: seq<FlagDef>, args: seq<string>,
                               parse: (seq<FlagDef>, seq<string>) -> ParseResult,
                               act: (Command, seq<string>) -> Option<Error>)
    requires root.sub.Parent? && !IsRunnable(root)
    requires |args| != 0 && args[0] != "help" && !HasFlagPrefix(args[0])
    requires forall c :: c in GetSubcommands(root) ==> c.name != args[0]
    ensures var inv := Respond(root, global, args, parse, act);
      inv == HelpInvocation(root, args, Registry(global, root)) &&
      inv.outcome == Returned(Some(Plain("unknown command: '" + root.name + " " + args[0] + "'")))
  {
    var na := NonFlagPrefix(args);
    assert na[..1] == [args[0]];
    FindCommandNone(GetSubcommands(root), args[0]);
    assert FindCommand(GetSubcommands(root), args[0]).None?;
    assert Loaded(root, args) == (root, []);
    assert Dispatch(root, global, args, parse) == ToHelp;
    RespondByRoute(root, global, args, parse, act);
    assert Respond(root, global, args, parse, act) == HelpInvocation(root, args, Registry(global, root));
    var h := HelpFor(root, args, Registry(global, root));
    assert h.trail == [] && h.usable && !h.runnable && h.args == args;
    assert h.Result() == Some(CommandNotFound(root.name, [args[0]]));
    JoinSnoc([root.name], " ", args[0]);
    var j := Join([root.name] + [args[0]], " ");
    assert j == root.name + " " + args[0];
    Regroup("unknown command: '", root.name, " ", args[0], "'");
  }

  /** Below a node that is not runnable but whose help succeeds (a parent, or a topic with a
      Long or Foot text), more non-flag arguments than the breadcrumb matched (after a leading
      "help") end in "unknown command" for the arguments up to the first unmatched one, with or
      without "help" in front and whatever flags follow. */
  lemma SurplusArgumentIsUnknownCommand(root: Command, global: seq<FlagDef>, args: seq<string>,
                                  parse: (seq<FlagDef>, seq<string>) -> ParseResult,
                                  act: (Command, seq<string>) -> Option<Error>)
    requires var (cmd, trail) := Loaded(root, args);
      !IsRunnable(cmd) && (cmd.sub.Parent? || cmd.long.Some? || cmd.foot.Some?) &&
      |NonFlagPrefix(SkipHelpCommand(args))| > |trail|
    ensures var trail := Loaded(root, args).1;
      var na := NonFlagPrefix(SkipHelpCommand(args));
      Respond(root, global, args, parse, act).outcome ==
        Returned(Some(CommandNotFound(root.name, na[..|trail| + 1])))
  {
    var (cmd, trail) := Loaded(root, args);
    assert Dispatch(root, global, args, parse) == ToHelp;
    RespondByRoute(root, global, args, parse, act);
    var fs := Registry(global, cmd);
    HelpShowsLoadedNode(root, args, fs);
    var h := HelpFor(root, args, fs);
    assert !h.runnable && h.Failure().None?;
  }

  /** Regrouping a concatenation of strings. */
  lemma Regroup(a: string, b: string, c: string, d: string, e: string)
    ensures a + (b + c + d) + e == a + b + c + d + e
  {
  }

  /** Reaching a node that implements none of Runnable, Parent, Longer or Footer, with or
      without "help" in front, ends in "missing implementation" naming the breadcrumb. */
  lemma BareTopicIsMissingImplementation(root: Command, global: seq<FlagDef>, args: seq<string>,
                                         parse: (seq<FlagDef>, seq<string>) -> ParseResult,
                                         act: (Command, seq<string>) -> Option<Error>)
    requires var cmd := Loaded(root, args).0;
      !IsRunnable(cmd) && cmd.sub.NotParent? && cmd.long.None? && cmd.foot.None?
    ensures var trail := Loaded(root, args).1;
      Respond(root, global, args, parse, act).outcome ==
        Returned(Some(Plain("command or topic '" + Join(trail, " ") + "' is missing implementation")))
  {
    assert Dispatch(root, global, args, parse) == ToHelp;
    RespondByRoute(root, global, args, parse, act);
    HelpShowsLoadedNode(root, args, Registry(global, Loaded(root, args).0));
    MissingImplementation(HelpFor(root, args, Registry(global, Loaded(root, args).0)));
  }

  /** The Program: its root command (None for a nil Root), the flags GlobalFlags registers
      (empty when it is nil), the lines written to Output, and the flag set of the current
      invocation. */
  class Program {
    var root: Option<Command>
    var globalFlags: seq<FlagDef>
    var output: seq<string>
    var fs: seq<FlagDef>

    constructor(root: Option<Command>, globalFlags: seq<FlagDef>)
      ensures this.root == root && this.globalFlags == globalFlags
      ensures output == [] && fs == []
    {
      this.root := root;
      this.globalFlags := globalFlags;
      output := [];
      fs := [];
    }

    /** Run: panics on a missing root or on a duplicated command, starts a fresh flag set
        holding the global flags and hands over to runCommand. */
    method Run(args: seq<string>, parse: (seq<FlagDef>, seq<string>) -> ParseResult,
               act: (Command, seq<string>) -> Option<Error>) returns (outcome: Outcome)
      modifies this
      ensures var inv := Execute(old(root), old(globalFlags), args, parse, act);
        outcome == inv.outcome && output == old(output) + inv.written
      ensures root == old(root) && globalFlags == old(globalFlags)
      ensures !outcome.Panicked? ==> fs == Registry(globalFlags, Loaded(root.value, args).0)
      ensures outcome.Panicked? ==> fs == old(fs)
    {
      if root.None? {
        return Panicked("root command not implemented");
      }
      var panicked := CheckDuplicated(root.value, [root.value.name]);
      if panicked.Some? {
        return Panicked(panicked.value);
      }
      fs := globalFlags;
      outcome := RunCommand(args, parse, act);
    }

    /** runCommand: load the node, register its flags, then follow Dispatch. */
    method RunCommand(args: seq<string>, parse: (seq<FlagDef>, seq<string>) -> ParseResult,
                      act: (Command, seq<string>) -> Option<Error>) returns (outcome: Outcome)
      requires root.Some?
      modifies this
      ensures root == old(root) && globalFlags == old(globalFlags)
      ensures var inv := Respond(root.value, old(fs), args, parse, act);
        outcome == inv.outcome && output == old(output) + inv.written
      ensures fs == Registry(old(fs), Loaded(root.value, args).0)
    {
      var cmd, trail := LoadCommand(root.value, SkipHelpCommand(args));
      assert (cmd, trail) == Loaded(root.value, args);
      assert cmd == Loaded(root.value, args).0 && trail == Loaded(root.value, args).1;
      ghost var global := fs;
      fs := fs + LocalFlags(cmd);
      ghost var route := Dispatch(root.value, global, args, parse);
      RespondByRoute(root.value, global, args, parse, act);
      if (|args| == 0 && !IsRunnable(root.value)) || (|args| != 0 && args[0] == "help") {
        assert route == ToHelp;
        outcome := RunHelp(args);
        return;
      }
      if |trail| == 0 && !IsRunnable(root.value) {
        // "unknown command" is reported by the help page
        assert route == ToHelp;
        outcome := RunHelp(args);
        return;
      }
      if IsRunnable(cmd) {
        match parse(fs, args[|trail|..]) {
          case HelpRequested =>
            assert route == ToHelp;
            outcome := RunHelp(args);
          case ParseFailed(e) =>
            assert route == ToFlagError(e);
            outcome := Returned(Some(e));
          case Parsed(residual) =>
            assert route == ToAction(cmd, residual);
            outcome := Returned(act(cmd, residual));
        }
        return;
      }
      assert route == ToHelp;
      outcome := RunHelp(args);
    }

    /** runHelp: walk the arguments without a leading "help", build the helper and run it. */
    method RunHelp(args: seq<string>) returns (outcome: Outcome)
      requires root.Some?
      modifies this
      ensures root == old(root) && globalFlags == old(globalFlags) && fs == old(fs)
      ensures var inv := HelpInvocation(root.value, args, fs);
        outcome == inv.outcome && output == old(output) + inv.written
    {
      var a := args;
      if |a| >= 1 && a[0] == "help" {
        a := a[1..];
      }
      var names := GetCommandArgs(a);
      var cmd, trail := WalkCommand(root.value, GetSubcommands(root.value), names);
      var h := Helper(cmd.long, cmd.foot, GetSubcommands(cmd), root.value.name, trail, a, false, false, fs);
      h := SetUsableHelp(cmd, h);
      var lines, err := h.Run();
      output := output + lines;
      outcome := Returned(err);
    }
  }
}
