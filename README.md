# clino in Dafny

clino is a small Go library for command-line programs. A program is a tree of commands.
A command always has a name. It may also implement optional interfaces:

- Runnable: it has an action.
- Parent: it has children.
- Shorter, Longer and Footer: it has help texts.
- FlagSet: it has flags.

`Program.Run` handles one invocation in this order:

1. It checks the tree.
2. It registers the global flags in a fresh flag set.
3. It walks the leading non-flag arguments down the tree, and registers the flags of the
   command it reached after the global ones.
4. It either runs that command's action on the arguments left after flag parsing, returns the
   flag parser's error, or writes a help page.

The help page ends with an error in two cases. The node implements none of the useful
interfaces ("missing implementation"). Or more arguments were given than the walk could match
below a command that is not runnable ("unknown command"). `ExitCode` maps the error a program
returns to a process exit code.

This project models that core:

- `commands.dfy` (module `Commands`): a command as a value. Each optional interface is an
  `Option` field or a flag. Also `strings.Join`.
- `resolve.dfy` (module `Resolve`):
  - the argument scanners `getCommandArgs` and `argumentsNonFlags`, specified by `NonFlagPrefix`;
  - `skipHelpCommand`;
  - name lookup (`getCommand`), specified by `FindCommand`;
  - the walk (`loadCommand`, `walkCommand`), specified by `Walk`;
  - `commandNotFound`;
  - the recursive duplicate-name check (`checkDuplicated`), specified by `FirstDuplicate`.
- `flags.dfy` (module `Flags`): `helpFlags` and `printFlag`. The flags come in the order
  `flag.FlagSet.VisitAll` visits them, which is sorted by name.
- `help.dfy` (module `Help`):
  - `argumentsNonFlags` and `helpCommands`;
  - the `helper` struct and its `Run`: the sections of the page, the exact usage, command, flag
    and hint lines, and the error with its deferred rewrite.
- `program.dfy` (module `Clino`):
  - the `Program` class with `Run`, `runCommand`, `runHelp` and `setUsableHelp`;
  - the pure functions these methods are proved against: `Loaded`, `Dispatch`, `Respond` and
    `Execute`.
- `exit.go` is modelled in `exit.dfy` (module `Exit`):
  - Go errors as values with their `Unwrap` chain;
  - the `ExitError` wrapper;
  - `ExitCode`, with `errors.As` as a search of that chain.
- `fixtures.dfy` (module `Fixtures`): the command trees of `mock_test.go`, and the outcomes the
  tests in `clino_test.go` expect of them, proved for every flag parser and every action.

What the output looks like in the model:

- Output is a sequence of elements, one per newline the code writes: each element is the text
  written up to that newline, tabs kept, before the tabwriter aligns it. The Long and Foot texts
  are written with one `"%s\n"` each, so each is one element, even when it holds newlines of
  its own.
- A panic is the outcome `Panicked(message)`.
- The flag parser is a parameter `parse`. It receives the registered flags and the tokens after
  the breadcrumb. It returns the residual arguments, a help request, or an error.
- A command's action is a parameter `act`.

## Model

| member | source | states |
|---|---|---|
| Commands.GetSubcommands | clino.go:260-265 | the children of a Parent, in the order `Commands()` returns them; the empty list for any other command |
| Commands.IsRunnable | clino.go:133-136 | a command is runnable iff it implements Runnable |
| Commands.JoinSnoc | clino.go:126 | joining a list with one more element appends the separator and that element, as `strings.Join` does |
| Resolve.NonFlagPrefix | clino.go:247-258 | the result is a prefix of the arguments with no token starting with '-', and either it is all of them or the next token starts with '-' |
| Resolve.NonFlagPrefixUnique | clino.go:247-258 | these three properties determine the result: any list with them is `NonFlagPrefix` |
| Resolve.GetCommandArgs | clino.go:247-258 | the loop returns exactly the longest prefix free of flag tokens (empty for empty input) |
| Resolve.SkipHelpCommand | clino.go:153-158 | one leading "help" is dropped (`["help"] + r == args`); any other list is returned unchanged |
| Resolve.FindCommandNone | clino.go:220-227 | a lookup finds nothing iff no command in the list carries the name |
| Resolve.FindFirstNamed | clino.go:220-227 | a lookup finds the first command of the list that carries the name |
| Resolve.GetCommand | clino.go:220-227 | the scan returns the first exact name match, or nothing |
| Resolve.Walk | clino.go:232-245 | the breadcrumb is a prefix of the names walked |
| Resolve.WalkStopsAtFirstUnmatched | clino.go:232-245 | the breadcrumb leads from the root to the node returned; the walk stops only when the names run out or at a name that no child of the node reached carries |
| Resolve.WalkTrail | clino.go:232-245 | an empty breadcrumb returns the root; each breadcrumb name is the name of a child of the node reached so far |
| Resolve.WalkConsumesValidPath | clino.go:232-245 | every name is consumed iff the names form a path of existing commands |
| Resolve.WalkCommand | clino.go:232-245 | the loop returns the node and breadcrumb of `Walk` |
| Resolve.LoadCommand | clino.go:143-151 | the node and breadcrumb are the walk of the leading non-flag tokens (the root and an empty breadcrumb for no arguments); the breadcrumb is a prefix of the arguments |
| Resolve.CommandNotFound | clino.go:138-141 | a plain error whose message is "unknown command: '" + the binary and the breadcrumb joined by spaces + "'" |
| Resolve.DuplicateMessage | clino.go:126 | the panic message is "command implemented multiple times: '", then exactly the path joined by spaces, then "'" |
| Resolve.ScanSiblingsNone | clino.go:122-130 | the loop over the children from index i on panics for none iff no remaining name repeats an earlier one (`DistinctFrom`) and every remaining subtree is sound (`SoundFrom`) |
| Resolve.FirstDuplicateNone | clino.go:117-131 | the check returns normally iff no sibling group anywhere in the tree repeats a name |
| Resolve.FirstDuplicatePath | clino.go:117-131 | a reported path starts with the given breadcrumb; it continues along existing commands to a node two of whose children carry the path's last name |
| Resolve.CheckDuplicated | clino.go:117-131 | panics iff the tree has a repeated sibling name; the message is "command implemented multiple times: '" + the reported path joined by spaces + "'" |
| Flags.NameLeqTotal | help.go:105-107 | any two flag names are ordered one way or the other |
| Flags.VisitAll | help.go:105-107 | the flags are visited sorted by name, each exactly once (a permutation of the flag set) |
| Flags.FlagLine | help.go:112-122 | a flag whose default is the zero value gets only its head (name, type word, usage), with no default |
| Flags.FlagLineRules | help.go:112-128 | a flag line starts with "\t-", the name, " (type)" unless the type word is empty, a tab and the usage; " (default …)" follows iff the default is not the zero value, quoted for string flags only |
| Flags.FlagEntries | help.go:105-107 | one line per visited flag, in visiting order |
| Flags.FlagBlockLayout | help.go:102-110 | the flags block is the heading "\tFlags:\t", one line per flag, the `-help` entry and an empty line |
| Flags.HelpFlags | help.go:102-110 | the lines written are the flags block of the flags in `VisitAll` order |
| Help.ArgumentsNonFlags | help.go:31-39 | the loop returns the longest prefix of the arguments free of flag tokens |
| Help.CommandLine | help.go:93-97 | a child's line is a tab, its name, a tab and exactly its Short text (empty without Shorter) |
| Help.CommandEntries | help.go:92-98 | one line per child, in order: a tab, its name, a tab, its Short text |
| Help.CommandsBlockLayout | help.go:87-100 | there is no commands section iff the node has no children; otherwise the section is the heading, a line per child in order with its name and Short text (empty when it has none), and the closing line of tabs |
| Help.HelpCommands | help.go:87-100 | the lines written are the commands section of the children |
| Help.Helper.WritePage | help.go:49-78 | the lines written are the page: the Long text, the blank line, the usage line, the commands, the flags, the hint and the Foot text, each only where the node calls for it |
| Help.Helper.Run | help.go:42-85 | writes the page and returns "missing implementation" or the rewritten "unknown command" error exactly as `Result` decides |
| Help.SectionsEmitted | help.go:49-78 | a page has exactly the sections its node calls for, each once, always in the same order |
| Help.LinesFollowSections | help.go:49-78 | the lines of a page are its sections rendered one after the other |
| Help.UsageAndFlagsIffUsable | help.go:59-72 | the usage line and the flags block appear iff the node is usable; the blank line iff there is a Long text and the node is usable; the command list and the hint iff there are children |
| Help.UsageText | help.go:52-71 | the usage line at the root reads "Usage:  <bin> <command> [flags] [arguments]"; below the root it has the breadcrumb joined by spaces, followed by " <command>" only when the node has children; the hint line reads "Use \"<bin> help <command>\" ..." at the root and names the same breadcrumb text, with " <command>" for a node with children, below it |
| Help.MissingImplementation | help.go:79-83 | "command or topic '<breadcrumb>' is missing implementation" is returned iff the node is not usable and has no Long or Foot text |
| Help.UnknownCommandRewrite | help.go:43-48 | the deferred closure changes the result iff help succeeded, the node is not runnable, and more non-flag arguments were given than the breadcrumb has; the new error names the binary and the non-flag arguments up to the first unmatched one |
| Help.RunnableHelpSucceeds | help.go:45 | the help of a runnable node never fails |
| Exit.ExitError.Error | exit.go:20-22 | the message of an ExitError is the message of the error it wraps, or "<nil>" when it wraps none |
| Exit.ExitError.Unwrap | exit.go:25 | Unwrap returns the wrapped error unchanged |
| Exit.Chain | exit.go:48 | the chain `errors.As` walks starts with the error itself |
| Exit.ExitCode | exit.go:43-45 | a nil error gives 0 |
| Exit.AsExitErrorIsFirstOnChain | exit.go:47-50 | `errors.As` finds an ExitError iff one is on the chain, and it finds the first one |
| Exit.AsChildExitIsLastOnChain | exit.go:52-53 | a child-process error is found iff it ends the chain, with its exited flag and status |
| Exit.ExitErrorOnChainWins | exit.go:47-50 | the code of the first ExitError on the chain is the exit code, whatever stands further down |
| Exit.ExitCodeWithoutExitError | exit.go:52-59 | without an ExitError on the chain: the status of a child process that exited normally, otherwise 1 |
| Exit.ExitErrorsKeepMessage | exit.go:20-25 | wrapping an error in ExitErrors keeps its message, and the outermost code is the exit code |
| Clino.Loaded | clino.go:161 | the breadcrumb is never longer than the arguments, and it is a prefix of them unless they start with "help" |
| Clino.Registry | clino.go:108-113 | the flag set holds the global flags first, then the flags of the command loaded (lines 162-164) |
| Clino.SetUsableHelp | clino.go:214-218 | the helper is runnable iff the node is; it is usable iff the node is runnable or a parent; nothing else changes |
| Clino.EmptyArgsResolveToRoot | clino.go:145-147 | no arguments load the root with an empty breadcrumb |
| Clino.Dispatch | clino.go:160-184 | a leading "help" always goes to the help page; the action is only ever given the loaded node, and only when it is runnable |
| Clino.HelpFor | clino.go:186-210 | the helper names the root as binary, keeps the flag set, works on the arguments without a leading "help", its breadcrumb is a prefix of their non-flag prefix, and a runnable node is usable |
| Clino.Respond | clino.go:160-210 | runCommand never panics, and only the help page writes output |
| Clino.Execute | clino.go:100-114 | Run panics iff the root is nil or the tree repeats a sibling name, and a panic writes nothing |
| Clino.DispatchRules | clino.go:160-184 | help is chosen when "help" comes first, when nothing runnable was named at a root that is not runnable, and when the node is not runnable; otherwise the arguments after the breadcrumb go to the parser over global then local flags; a help request gives help, a parse error is returned as it is, and the residual goes to the action |
| Clino.HelpShowsLoadedNode | clino.go:186-210 | the help page describes the node runCommand loaded: same breadcrumb, children, Long and Foot texts, the root's name as binary, the registered flags |
| Clino.TreeProblemsPanic | clino.go:100-114 | a nil root panics with "root command not implemented"; a repeated sibling name panics with the duplicate message; either way nothing is written; every other tree goes to runCommand |
| Clino.UnknownTopLevelCommand | clino.go:168-172 | a first argument naming no child of a root that is a parent but not runnable writes the root's help page and returns "unknown command: '<root> <argument>'" |
| Clino.SurplusArgumentIsUnknownCommand | help.go:43-48 | below a node that is not runnable and whose help succeeds (a parent, or a topic with a Long or Foot text), more non-flag arguments (after a leading "help") than the breadcrumb matched return "unknown command" for the arguments up to the first unmatched one, whatever flags follow |
| Clino.SoundTreeResponds | clino.go:104-113 | a tree without repeated sibling names does not panic and goes to runCommand |
| Clino.BareTopicIsMissingImplementation | help.go:79-83 | reaching a node that implements none of Runnable, Parent, Longer or Footer returns "missing implementation" for its breadcrumb |
| Clino.Program.constructor | clino.go:78-94 | a program starts with its root and global flags, no output and an empty flag set |
| Clino.Program.Run | clino.go:100-114 | the outcome and the lines written are those of `Execute`; when nothing panicked, the flag set holds the global then the local flags; a panic leaves the flag set as it was |
| Clino.Program.RunCommand | clino.go:160-184 | the outcome and the lines written are those of `Respond`; the node's flags are added to the flag set |
| Clino.Program.RunHelp | clino.go:186-210 | writes the help page of the node the arguments (after a leading "help") lead to, and returns its error |
| Fixtures.BadRootPanics | clino_test.go:380-391 | the tree with two "simple" children panics with "command implemented multiple times: 'bad simple'" |
| Fixtures.SoundTrees | mock_test.go:52-218 | the other test trees have no repeated sibling names |
| Fixtures.UnimplementedCommand | clino_test.go:184-189 | `app unimplemented` returns "command or topic 'unimplemented' is missing implementation" |
| Fixtures.CommandNotFoundAtRoot | clino_test.go:289-295 | `app notfound x -v` returns "unknown command: 'app notfound'" |
| Fixtures.CommandNotFoundBelowRoot | clino_test.go:316-322 | `cmd inner notfound -help x -v` returns "unknown command: 'cmd inner notfound'" |
| Fixtures.HelpCommandNotFound | clino_test.go:296-302 | `cmd help inner notfound x -v` returns "unknown command: 'cmd inner notfound'" |
| Fixtures.HelpUnknownAtRoot | clino_test.go:196-202 | `app help command-not-found` returns "unknown command: 'app command-not-found'" |
| Fixtures.TopicWithSurplusArgument | help.go:43-48 | in the rootCommand tree, `app not-runnable extra` returns "unknown command: 'app not-runnable extra'": the topic is not runnable and has a Long text |
| Fixtures.IgnoredNotFound | clino_test.go:281-288 | `cmd help ignored-notfound` returns no error, because the root is runnable |
| Fixtures.SimpleGetsItsArguments | clino_test.go:65-93 | a runnable root without children passes arguments that do not start with "help" to the parser whole, and the residual to its action, writing nothing |
| Fixtures.ExitCodeCases | clino_test.go:393-448 | nil gives 0; ExitError 2 gives 2; a plain error gives 1; a child that exited with 2 gives 2; an ExitError unwraps to, and prints as, the error it wraps |

## Left out

- The flag package. `Parse` is the `parse` parameter. Panics on a redefined flag and the handling
  of `--` belong to it and are not modelled.
- `flag.UnquoteUsage`: a flag's type word and usage text are given as fields of `FlagDef`.
- The tabwriter: lines are modelled before column alignment, and `Flush` errors are not modelled.
- `isZeroValue`, which builds a zero value by reflection: whether a default is the zero value is
  a given field (`defIsZero`).
- Flags.Quote: `%q` escaping is modelled as plain double quotes around the value.
- The `Output` writer and its `os.Stdout` default: the lines written are returned or kept as a
  sequence in `Program.output`.
- `context.Context`, which is only passed through to actions.
- Actions: what `Run` of a command does, and what it writes, is the `act` parameter.
- `os/exec` and `syscall`: a child-process error is modelled by whether the process exited and
  its status.
- Exit.AsExitError: the ExitError value type is matched, not `*ExitError` pointers.
  Errors with several wrapped errors (`Unwrap() []error`) are not modelled.
- `persistentFlagsCommand` and `rootCommandWithFlagsAndPersistentFlags` in `mock_test.go`:
  `PersistentFlags` is never consulted by `clino.go`. The flags of `rootCommandWithFlags` are
  left out of its fixture, because no modelled fixture statement depends on them.
- Help-page text compared against golden files: the fixtures state errors and routes, not the
  whole text of a page.
