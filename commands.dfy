/** The capability model of clino.go: a command is a name plus the optional interfaces
    (Shorter, Longer, Footer, FlagSet, Parent, Runnable) it happens to implement. */
module Commands {
  import opened Wrappers

  /** One flag definition as the flag package reports it: its name, the type word and usage text
      that `flag.UnquoteUsage` extracts, its default value as text, and whether that default is the
      zero value of the flag's type. */
  datatype FlagDef = FlagDef(name: string, typ: string, usage: string, defValue: string, defIsZero: bool)

  /** The Parent capability: absent, or present with the ordered list `Commands()` returns. */
  datatype Subcommands = NotParent | Parent(commands: seq<Command>)

  /** A command value. `short`, `long` and `foot` are the Shorter, Longer and Footer capabilities;
      `flags` is the FlagSet capability, given as the flags its `Flags` method registers;
      `runnable` says whether it implements Runnable (its action itself is outside the model). */
  datatype Command = Command(
    name: string,
    short: Option<string>,
    long: Option<string>,
    foot: Option<string>,
    flags: Option<seq<FlagDef>>,
    sub: Subcommands,
    runnable: bool)

  /** getSubcommands: the children of a Parent, and the empty list for any other command. */
  function GetSubcommands(cmd: Command): (cs: seq<Command>)
    ensures cmd.sub.Parent? ==> cs == cmd.sub.commands
    ensures cmd.sub.NotParent? ==> cs == []
  {
    match cmd.sub
    case NotParent => []
    case Parent(cs) => cs
  }

  /** isRunnable: whether the command implements Runnable. */
  predicate IsRunnable(cmd: Command): (r: bool)
    ensures r <==> cmd.runnable
  {
    cmd.runnable
  }

  /** The flags a command's FlagSet capability contributes (none without the capability). */
  function LocalFlags(cmd: Command): seq<FlagDef>
  {
    match cmd.flags
    case None => []
    case Some(fs) => fs
  }

  /** `strings.HasPrefix(arg, "-")`: the token looks like a flag. */
  predicate HasFlagPrefix(arg: string)
  {
    |arg| > 0 && arg[0] == '-'
  }

  /** `strings.Join(parts, sep)`. */
  function Join(parts: seq<string>, sep: string): string
  {
    if parts == [] then ""
    else if |parts| == 1 then parts[0]
    else Join(parts[..|parts| - 1], sep) + sep + parts[|parts| - 1]
  }

  /** Joining one more part appends the separator and that part. */
  lemma JoinSnoc(parts: seq<string>, sep: string, last: string)
    requires parts != []
    ensures Join(parts + [last], sep) == Join(parts, sep) + sep + last
  {
    assert (parts + [last])[..|parts|] == parts;
  }
}
