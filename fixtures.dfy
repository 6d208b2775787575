/** The command trees of mock_test.go and the outcomes clino_test.go expects of them. The
    flag parser and the actions stay parameters: each statement holds for every parser and
    every action. */
module Fixtures {
  import opened Wrappers
  import opened Commands
  import opened Exit
  import opened Resolve
  import opened Help
  import opened Clino

  /** simpleCommand: runnable, with a Long text and a -name string flag. */
  function Simple(): Command
  {
    Command("simple", None, Some("Example application."), None,
      Some([FlagDef("name", "string", "your name", "World", false)]), NotParent, true)
  }

  /** notRunnableCommand: a help topic with Short and Long texts. */
  function NotRunnable(): Command
  {
    Command("not-runnable", Some("command containing a help topic"),
      Some("This is a not so long,\nmultiline help topic."), None, None, NotParent, false)
  }

  /** unimplementedCommand: a name and nothing else. */
  function Unimplemented(): Command
  {
    Command("unimplemented", None, None, None, None, NotParent, false)
  }

  /** rootCommand: a parent that is not runnable, with Long and Foot texts. */
  function App(): Command
  {
    Command("app", None, Some("Example application."),
      Some("Example: add anything here.\n\nIf you like this library, let me know!"), None,
      Parent([NotRunnable(), Unimplemented()]), false)
  }

  /** innerCommand: a parent of a topic and simpleCommand. */
  function Inner(): Command
  {
    Command("inner", None, None, None, None, Parent([NotRunnable(), Simple()]), false)
  }

  /** rootCommandWithFlags: a runnable parent (its flags are left out here). */
  function Cmd(): Command
  {
    Command("cmd", None, None, None, None, Parent([NotRunnable(), Inner()]), true)
  }

  /** badRootCommand: simpleCommand twice. */
  function Bad(): Command
  {
    Command("bad", None, None, None, None, Parent([Simple(), Simple()]), false)
  }

  /** A tree with two children named "simple" panics before looking at any argument. */
  lemma BadRootPanics(global: seq<FlagDef>, args: seq<string>,
                      parse: (seq<FlagDef>, seq<string>) -> ParseResult,
                      act: (Command, seq<string>) -> Option<Error>)
    ensures Execute(Some(Bad()), global, args, parse, act) ==
      Invocation(Panicked("command implemented multiple times: 'bad simple'"), [])
  {
    var cs := GetSubcommands(Bad());
    assert cs == [Simple(), Simple()] && cs[1].name == "simple";
    assert "simple" in {"simple"};
    assert ["bad"] + ["simple"] == ["bad", "simple"];
    assert FirstDuplicate(Simple(), ["bad", "simple"]) == None;
    assert ScanSiblings(Bad(), 0, {}, ["bad"]) == ScanSiblings(Bad(), 1, {} + {"simple"}, ["bad"]);
    assert {} + {"simple"} == {"simple"};
    assert ScanSiblings(Bad(), 1, {"simple"}, ["bad"]) == Some(["bad", "simple"]);
    assert FirstDuplicate(Bad(), ["bad"]) == Some(["bad", "simple"]);
    JoinSnoc(["bad"], " ", "simple");
    assert Join(["bad", "simple"], " ") == "bad simple";
    assert DuplicateMessage(["bad", "simple"]) == "command implemented multiple times: 'bad simple'";
  }

  /** The trees of the tests other than badRootCommand have unique sibling names. */
  lemma SoundTrees()
    ensures UniqueSiblings(App()) && UniqueSiblings(Cmd()) && UniqueSiblings(Simple())
  {
    assert UniqueSiblings(NotRunnable()) && UniqueSiblings(Unimplemented()) && UniqueSiblings(Simple());
    SoundPair(Inner(), NotRunnable(), Simple());
    SoundPair(App(), NotRunnable(), Unimplemented());
    SoundPair(Cmd(), NotRunnable(), Inner());
  }

  /** A parent of two sound children with different names is sound. */
  lemma SoundPair(cmd: Command, a: Command, b: Command)
    requires GetSubcommands(cmd) == [a, b] && a.name != b.name
    requires UniqueSiblings(a) && UniqueSiblings(b)
    ensures UniqueSiblings(cmd)
  {
  }

  /** `app unimplemented` fails with "missing implementation". */
  lemma UnimplementedCommand(global: seq<FlagDef>, args: seq<string>,
                             parse: (seq<FlagDef>, seq<string>) -> ParseResult,
                             act: (Command, seq<string>) -> Option<Error>)
    requires args == ["unimplemented"]
    ensures Execute(Some(App()), global, args, parse, act).outcome ==
      Returned(Some(Plain("command or topic 'unimplemented' is missing implementation")))
  {
    SoundTrees();
    SoundTreeResponds(App(), global, args, parse, act);
    assert NonFlagPrefix(args) == args;
    assert GetSubcommands(App()) == [NotRunnable(), Unimplemented()];
    FindFirstNamed(GetSubcommands(App()), "unimplemented", 1);
    assert Walk(Unimplemented(), []) == (Unimplemented(), []);
    assert Loaded(App(), args) == (Unimplemented(), ["unimplemented"]);
    BareTopicIsMissingImplementation(App(), global, args, parse, act);
    assert Join(["unimplemented"], " ") == "unimplemented";
    SpellMissing();
  }

  lemma SpellMissing()
    ensures "command or topic '" + "unimplemented" + "' is missing implementation" ==
      "command or topic 'unimplemented' is missing implementation"
  {
    assert "command or topic '" + "unimplemented" == "command or topic 'unimplemented";
  }

  /** `app notfound x -v` fails with "unknown command: 'app notfound'". */
  lemma CommandNotFoundAtRoot(global: seq<FlagDef>, args: seq<string>,
                              parse: (seq<FlagDef>, seq<string>) -> ParseResult,
                              act: (Command, seq<string>) -> Option<Error>)
    requires args == ["notfound", "x", "-v"]
    ensures Execute(Some(App()), global, args, parse, act).outcome ==
      Returned(Some(Plain("unknown command: 'app notfound'")))
  {
    SoundTrees();
    SoundTreeResponds(App(), global, args, parse, act);
    assert GetSubcommands(App()) == [NotRunnable(), Unimplemented()];
    assert args[0] == "notfound" && !HasFlagPrefix(args[0]);
    UnknownTopLevelCommand(App(), global, args, parse, act);
    SpellNotFound();
  }

  lemma SpellNotFound()
    ensures "unknown command: '" + "app" + " " + "notfound" + "'" == "unknown command: 'app notfound'"
  {
  }

  /** `app help command-not-found` writes the root's help page and fails with
      "unknown command: 'app command-not-found'". */
  lemma HelpUnknownAtRoot(global: seq<FlagDef>, args: seq<string>,
                          parse: (seq<FlagDef>, seq<string>) -> ParseResult,
                          act: (Command, seq<string>) -> Option<Error>)
    requires args == ["help", "command-not-found"]
    ensures Execute(Some(App()), global, args, parse, act).outcome ==
      Returned(Some(Plain("unknown command: 'app command-not-found'")))
  {
    SoundTrees();
    SoundTreeResponds(App(), global, args, parse, act);
    UnknownAtRootWalk(args);
    SurplusArgumentIsUnknownCommand(App(), global, args, parse, act);
    UnknownAtRootMessage();
  }

  /** How `help command-not-found` is walked in the tree of rootCommand. */
  lemma UnknownAtRootWalk(args: seq<string>)
    requires args == ["help", "command-not-found"]
    ensures NonFlagPrefix(SkipHelpCommand(args)) == ["command-not-found"]
    ensures Loaded(App(), args) == (App(), [])
  {
    var rest := SkipHelpCommand(args);
    assert rest == ["command-not-found"];
    assert NonFlagPrefix(rest) == rest;
    assert GetSubcommands(App()) == [NotRunnable(), Unimplemented()];
    assert FindCommand(GetSubcommands(App()), "command-not-found") == None;
  }

  /** The error for `app command-not-found`. */
  lemma UnknownAtRootMessage()
    ensures CommandNotFound("app", ["command-not-found"][..1]) == Plain("unknown command: 'app command-not-found'")
  {
    assert ["command-not-found"][..1] == ["command-not-found"];
    JoinSnoc(["app"], " ", "command-not-found");
    assert ["app"] + ["command-not-found"] == ["app", "command-not-found"];
    SpellUnknownAtRoot();
  }

  lemma SpellUnknownAtRoot()
    ensures "unknown command: '" + ("app" + " " + "command-not-found") + "'" ==
      "unknown command: 'app command-not-found'"
  {
  }

  /** `app not-runnable extra` writes the topic's page and fails with
      "unknown command: 'app not-runnable extra'": a topic with a Long text is not runnable, so
      a word after it is a command it does not have. */
  lemma TopicWithSurplusArgument(global: seq<FlagDef>, args: seq<string>,
                                 parse: (seq<FlagDef>, seq<string>) -> ParseResult,
                                 act: (Command, seq<string>) -> Option<Error>)
    requires args == ["not-runnable", "extra"]
    ensures Execute(Some(App()), global, args, parse, act).outcome ==
      Returned(Some(Plain("unknown command: 'app not-runnable extra'")))
  {
    SoundTrees();
    SoundTreeResponds(App(), global, args, parse, act);
    TopicWalk(args);
    SurplusArgumentIsUnknownCommand(App(), global, args, parse, act);
    TopicMessage();
  }

  /** How `not-runnable extra` is walked in the tree of rootCommand. */
  lemma TopicWalk(args: seq<string>)
    requires args == ["not-runnable", "extra"]
    ensures NonFlagPrefix(SkipHelpCommand(args)) == args
    ensures Loaded(App(), args) == (NotRunnable(), ["not-runnable"])
  {
    assert SkipHelpCommand(args) == args;
    assert NonFlagPrefix(args) == args;
    assert GetSubcommands(App()) == [NotRunnable(), Unimplemented()];
    FindFirstNamed(GetSubcommands(App()), "not-runnable", 0);
    assert FindCommand(GetSubcommands(NotRunnable()), "extra") == None;
    assert Walk(NotRunnable(), ["extra"]) == (NotRunnable(), []);
    assert args[0] == "not-runnable" && args[1..] == ["extra"];
    assert Walk(App(), args) == (NotRunnable(), ["not-runnable"] + []);
    assert ["not-runnable"] + [] == ["not-runnable"];
  }

  /** The error for `app not-runnable extra`. */
  lemma TopicMessage()
    ensures CommandNotFound("app", ["not-runnable", "extra"][..2]) ==
      Plain("unknown command: 'app not-runnable extra'")
  {
    assert ["not-runnable", "extra"][..2] == ["not-runnable", "extra"];
    JoinSnoc(["app"], " ", "not-runnable");
    JoinSnoc(["app", "not-runnable"], " ", "extra");
    assert ["app"] + ["not-runnable", "extra"] == ["app", "not-runnable"] + ["extra"];
    var joined := "app" + " " + "not-runnable" + " " + "extra";
    assert joined == "app not-runnable extra";
    assert "unknown command: '" + joined + "'" == "unknown command: 'app not-runnable extra'";
  }

  /** `cmd inner notfound -help x -v` fails with "unknown command: 'cmd inner notfound'": the
      node reached is not runnable, so the -help is never parsed. */
  lemma CommandNotFoundBelowRoot(global: seq<FlagDef>, args: seq<string>,
                                 parse: (seq<FlagDef>, seq<string>) -> ParseResult,
                                 act: (Command, seq<string>) -> Option<Error>)
    requires args == ["inner", "notfound", "-help", "x", "-v"]
    ensures Execute(Some(Cmd()), global, args, parse, act).outcome ==
      Returned(Some(Plain("unknown command: 'cmd inner notfound'")))
  {
    SoundTrees();
    SoundTreeResponds(Cmd(), global, args, parse, act);
    InnerNotFoundWalk(args);
    assert SkipHelpCommand(args) == args;
    SurplusArgumentIsUnknownCommand(Cmd(), global, args, parse, act);
    assert NonFlagPrefix(args)[..2] == ["inner", "notfound"];
    InnerNotFoundMessage();
  }

  /** `cmd help inner notfound x -v` fails the same way. */
  lemma HelpCommandNotFound(global: seq<FlagDef>, args: seq<string>,
                            parse: (seq<FlagDef>, seq<string>) -> ParseResult,
                            act: (Command, seq<string>) -> Option<Error>)
    requires args == ["help", "inner", "notfound", "x", "-v"]
    ensures Execute(Some(Cmd()), global, args, parse, act).outcome ==
      Returned(Some(Plain("unknown command: 'cmd inner notfound'")))
  {
    SoundTrees();
    SoundTreeResponds(Cmd(), global, args, parse, act);
    var rest := SkipHelpCommand(args);
    assert rest == ["inner", "notfound", "x", "-v"];
    InnerNotFoundWalk(rest);
    SurplusArgumentIsUnknownCommand(Cmd(), global, args, parse, act);
    assert NonFlagPrefix(rest)[..2] == ["inner", "notfound"];
    InnerNotFoundMessage();
  }

  /** The error for `cmd inner notfound`. */
  lemma InnerNotFoundMessage()
    ensures CommandNotFound("cmd", ["inner", "notfound"]) == Plain("unknown command: 'cmd inner notfound'")
  {
    JoinSnoc(["cmd"], " ", "inner");
    JoinSnoc(["cmd", "inner"], " ", "notfound");
    assert ["cmd"] + ["inner", "notfound"] == ["cmd", "inner"] + ["notfound"];
    SpellNotFoundBelowRoot();
  }

  /** How `inner notfound -help x -v` is walked in the tree of rootCommandWithFlags. */
  lemma InnerNotFoundWalk(args: seq<string>)
    requires args == ["inner", "notfound", "-help", "x", "-v"] || args == ["inner", "notfound", "x", "-v"]
    ensures NonFlagPrefix(args)[..2] == ["inner", "notfound"]
    ensures Walk(Cmd(), NonFlagPrefix(args)) == (Inner(), ["inner"])
  {
    var na := NonFlagPrefix(args);
    var k := if args[2] == "x" then 3 else 2;
    assert HasFlagPrefix(args[k]);
    NonFlagPrefixUnique(args, args[..k]);
    assert na == args[..k];
    assert GetSubcommands(Cmd()) == [NotRunnable(), Inner()];
    FindFirstNamed(GetSubcommands(Cmd()), "inner", 1);
    assert GetSubcommands(Inner()) == [NotRunnable(), Simple()];
    assert FindCommand(GetSubcommands(Inner()), "notfound") == None;
    assert na[1..][0] == "notfound";
    assert Walk(Inner(), na[1..]) == (Inner(), []);
    assert ["inner"] + [] == ["inner"];
    assert Walk(Cmd(), na) == (Inner(), ["inner"]);
  }

  lemma SpellNotFoundBelowRoot()
    ensures "unknown command: '" + ("cmd" + " " + "inner" + " " + "notfound") + "'" ==
      "unknown command: 'cmd inner notfound'"
  {
  }

  /** `cmd help ignored-notfound` succeeds: the root is runnable, so a word it does not know
      may be one of its own arguments. */
  lemma IgnoredNotFound(global: seq<FlagDef>, args: seq<string>,
                        parse: (seq<FlagDef>, seq<string>) -> ParseResult,
                        act: (Command, seq<string>) -> Option<Error>)
    requires args == ["help", "ignored-notfound"]
    ensures Execute(Some(Cmd()), global, args, parse, act).outcome == Returned(None)
  {
    SoundTrees();
    SoundTreeResponds(Cmd(), global, args, parse, act);
    assert Dispatch(Cmd(), global, args, parse) == ToHelp;
    RespondByRoute(Cmd(), global, args, parse, act);
    var h := HelpFor(Cmd(), args, Registry(global, Loaded(Cmd(), args).0));
    assert HelpArgs(args) == ["ignored-notfound"];
    assert NonFlagPrefix(["ignored-notfound"]) == ["ignored-notfound"];
    assert GetSubcommands(Cmd()) == [NotRunnable(), Inner()];
    assert FindCommand(GetSubcommands(Cmd()), "ignored-notfound") == None;
    assert h.runnable && h.usable;
    RunnableHelpSucceeds(h);
  }

  /** A runnable root without children hands every argument list that does not start with
      "help" to the flag parser whole, and the parser's residual to its action; nothing is
      written. */
  lemma SimpleGetsItsArguments(global: seq<FlagDef>, args: seq<string>,
                               parse: (seq<FlagDef>, seq<string>) -> ParseResult,
                               act: (Command, seq<string>) -> Option<Error>, residual: seq<string>)
    requires |args| == 0 || args[0] != "help"
    requires parse(global + LocalFlags(Simple()), args) == Parsed(residual)
    ensures Execute(Some(Simple()), global, args, parse, act) ==
      Invocation(Returned(act(Simple(), residual)), [])
  {
    SoundTrees();
    SoundTreeResponds(Simple(), global, args, parse, act);
    assert Loaded(Simple(), args).1 == [];
    assert args[0..] == args;
    RespondByRoute(Simple(), global, args, parse, act);
  }

  /** The cases of TestExitCode and TestExitError. */
  lemma ExitCodeCases(e: Error)
    ensures ExitCode(None) == 0
    ensures ExitCode(Some(Exit(ExitError(2, Some(Plain("cannot find system")))))) == 2
    ensures ExitCode(Some(Plain("cannot find error code"))) == 1
    ensures ExitCode(Some(ChildExit(true, 2, "exit status 2"))) == 2
    ensures ExitError(3, Some(e)).Unwrap() == Some(e)
    ensures ExitError(3, Some(e)).Error() == Message(e)
  {
  }
}
