/** The help renderer of help.go: which sections a help page has, the exact usage, command
    and hint lines, and the two ways a help request fails. Output is a sequence with one element
    per newline written: the text up to that newline, tabs kept, before tab alignment. The Long
    and Foot texts are one element each, whatever newlines they hold themselves. */
module Help {
  import opened Wrappers
  import opened Commands
  import opened Exit
  import opened Resolve
  import opened Flags

  /** argumentsNonFlags: collect tokens until the first one that starts with '-'. */
  method ArgumentsNonFlags(args: seq<string>) returns (nargs: seq<string>)
    ensures nargs == NonFlagPrefix(args)
  {
    nargs := [];
    for i := 0 to |args|
      invariant nargs == args[..i]
      invariant forall k :: 0 <= k < i ==> !HasFlagPrefix(args[k])
    {
      if HasFlagPrefix(args[i]) {
        NonFlagPrefixUnique(args, nargs);
        return;
      }
      nargs := nargs + [args[i]];
    }
    assert args[..|args|] == args;
    NonFlagPrefixUnique(args, nargs);
  }

  // ---- the commands section ----

  /** A child's Short text, or the empty string when it does not implement Shorter. */
  function ShortOf(c: Command): string
  {
    match c.short
    case None => ""
    case Some(s) => s
  }

  /** The line helpCommands writes for one child: its name, a tab, its short text. */
  function CommandLine(c: Command): (line: string)
    ensures |line| == |c.name| + 2 + |ShortOf(c)|
    ensures line[0] == '\t' && line[1..|c.name| + 1] == c.name && line[|c.name| + 1] == '\t'
    ensures line[|c.name| + 2..] == ShortOf(c)
  {
    "\t" + c.name + "\t" + ShortOf(c)
  }

  function CommandEntries(cs: seq<Command>): (lines: seq<string>)
    ensures |lines| == |cs|
    ensures forall i :: 0 <= i < |cs| ==> lines[i] == CommandLine(cs[i])
  {
    if cs == [] then [] else CommandEntries(cs[..|cs| - 1]) + [CommandLine(cs[|cs| - 1])]
  }

  /** The commands section: nothing without children; otherwise a heading, a line per child
      in order, and the closing line of tabs. */
  function CommandsBlock(cs: seq<Command>): seq<string>
  {
    if cs == [] then [] else ["\tCommands:"] + CommandEntries(cs) + ["\t\t\t"]
  }

  /** The commands section lists every child, in order, by name and Short text (or nothing). */
  lemma CommandsBlockLayout(cs: seq<Command>)
    ensures cs == [] <==> CommandsBlock(cs) == []
    ensures cs != [] ==> var b := CommandsBlock(cs);
      |b| == |cs| + 2 && b[0] == "\tCommands:" && b[|b| - 1] == "\t\t\t" &&
      forall i :: 0 <= i < |cs| ==> b[i + 1] == "\t" + cs[i].name + "\t" + ShortOf(cs[i])
  {
  }

  /** helpCommands: the heading, then each child's line, then the closing line. */
  method HelpCommands(cs: seq<Command>) returns (lines: seq<string>)
    ensures lines == CommandsBlock(cs)
  {
    lines := [];
    if |cs| == 0 {
      return;
    }
    lines := ["\tCommands:"];
    for i := 0 to |cs|
      invariant lines == ["\tCommands:"] + CommandEntries(cs[..i])
    {
      assert cs[..i + 1][..i] == cs[..i];
      var short := ShortOf(cs[i]);
      lines := lines + ["\t" + cs[i].name + "\t" + short];
    }
    assert cs[..|cs|] == cs;
    lines := lines + ["\t\t\t"];
  }

  // ---- the helper ----

  /** The sections a help page can have. */
  datatype Section = LongText | Blank | Usage | CommandList | FlagList | Hint | Footer

  /** Every section, in the order helper.Run writes them. */
  const AllSections: seq<Section> := [LongText, Blank, Usage, CommandList, FlagList, Hint, Footer]

  function Rank(s: Section): nat
  {
    match s
    case LongText => 0
    case Blank => 1
    case Usage => 2
    case CommandList => 3
    case FlagList => 4
    case Hint => 5
    case Footer => 6
  }

  /** The helper struct: the resolved node's Long and Foot texts and children, the binary (root)
      name, the breadcrumb, the arguments after a leading "help", whether the node is runnable and
      whether it is usable (runnable or a Parent), and the flags of the invocation's flag set. */
  datatype Helper = Helper(
    long: Option<string>,
    foot: Option<string>,
    commands: seq<Command>,
    binary: string,
    trail: seq<string>,
    args: seq<string>,
    runnable: bool,
    usable: bool,
    fs: seq<FlagDef>)
  {
    /** The `command` text of the usage and hint lines: the breadcrumb, or "<command>" when it is empty. */
    function CommandText(): string
    {
      var command := Join(trail, " ");
      if command == "" then "<command>" else command
    }

    /** The `xcmd` text: " <command>" after a non-empty breadcrumb of a node with children. */
    function Xcmd(): string
    {
      if Join(trail, " ") == "" then ""
      else if |commands| != 0 then " <command>"
      else ""
    }

    function UsageLine(): string
    {
      "Usage:  " + binary + " " + CommandText() + Xcmd() + " [flags] [arguments]"
    }

    function HintLine(): string
    {
      "Use \"" + binary + " help " + CommandText() + Xcmd() + "\" for more information about that command."
    }

    /** Whether the page has the given section: the Long text when there is one; the blank line
        after it only for a usable node; the usage line and the flags block for a usable node;
        the command list and the hint when there are children; the footer when there is one. */
    predicate Emits(s: Section)
    {
      match s
      case LongText => long.Some?
      case Blank => long.Some? && usable
      case Usage => usable
      case CommandList => |commands| != 0
      case FlagList => usable
      case Hint => |commands| != 0
      case Footer => foot.Some?
    }

    /** The sections of `ss` this page has, in the order of `ss`. */
    function Filter(ss: seq<Section>): seq<Section>
    {
      if ss == [] then []
      else Filter(ss[..|ss| - 1]) + (if Emits(ss[|ss| - 1]) then [ss[|ss| - 1]] else [])
    }

    /** The sections of the page, in the order they are written. */
    function Sections(): seq<Section>
    {
      Filter(AllSections)
    }

    /** The lines of one section. */
    function Render(s: Section): seq<string>
    {
      match s
      case LongText => if long.Some? then [long.value] else []
      case Blank => [""]
      case Usage => [UsageLine(), ""]
      case CommandList => CommandsBlock(commands)
      case FlagList => FlagBlock(VisitAll(fs))
      case Hint => [HintLine()]
      case Footer => if foot.Some? then [foot.value] else []
    }

    function RenderAll(ss: seq<Section>): seq<string>
    {
      if ss == [] then [] else RenderAll(ss[..|ss| - 1]) + Render(ss[|ss| - 1])
    }

    /** The lines of section s on this page: none when the page does not have it. */
    function Piece(s: Section): seq<string>
    {
      if Emits(s) then Render(s) else []
    }

    /** Every line Run writes, section after section. */
    function Lines(): seq<string>
    {
      Piece(LongText) + Piece(Blank) + Piece(Usage) + Piece(CommandList) + Piece(FlagList) + Piece(Hint) + Piece(Footer)
    }

    /** The error a help request ends with before the deferred rewrite: "missing implementation"
        for a node that is neither usable nor has a Long or Foot text. */
    function Failure(): Option<Error>
    {
      if !usable && long.None? && foot.None? then
        Some(Plain("command or topic '" + Join(trail, " ") + "' is missing implementation"))
      else None
    }

    /** The error Run returns: the deferred closure turns a successful help for a node that is not
        runnable into "unknown command" when more non-flag arguments were given than the
        breadcrumb matched, naming the binary and the arguments up to the first unmatched one. */
    function Result(): Option<Error>
    {
      var na := NonFlagPrefix(args);
      if Failure().None? && !runnable && |na| > |trail| then Some(CommandNotFound(binary, na[..|trail| + 1]))
      else Failure()
    }

    /** helper.Run: write each section in turn, then decide the error. */
    method Run() returns (lines: seq<string>, err: Option<Error>)
      ensures lines == Lines()
      ensures err == Result()
    {
      lines := WritePage();
      err := None;
      if !usable && long.None? && foot.None? {
        // useful commands implement at least one of Runnable, Longer, Parent or Footer
        err := Some(Plain("command or topic '" + Join(trail, " ") + "' is missing implementation"));
      }
      // the deferred rewrite
      var na := ArgumentsNonFlags(args);
      if err.None? && !runnable && |na| > |trail| {
        err := Some(CommandNotFound(binary, na[..|trail| + 1]));
      }
    }

    /** The writing part of helper.Run: each section in turn, the commands and flags blocks
        through helpCommands and helpFlags. */
    method WritePage() returns (lines: seq<string>)
      ensures lines == Lines()
    {
      lines := [];
      if long.Some? {
        lines := lines + [long.value];
      }
      ghost var page := Piece(LongText);
      assert lines == page;
      var xcmd := "";
      var command := Join(trail, " ");
      if command == "" {
        command := "<command>";
      } else if |commands| != 0 {
        xcmd := " <command>";
      }
      assert command == CommandText() && xcmd == Xcmd();
      var before := lines;
      if long.Some? && usable {
        lines := lines + [""];
      }
      assert lines == before + Piece(Blank);
      page := page + Piece(Blank);
      before := lines;
      if usable {
        lines := lines + ["Usage:  " + binary + " " + command + xcmd + " [flags] [arguments]", ""];
      }
      assert lines == before + Piece(Usage);
      page := page + Piece(Usage);
      var block := HelpCommands(commands);
      lines := lines + block;
      page := page + Piece(CommandList);
      before := lines;
      if usable {
        var flagLines := HelpFlags(fs);
        lines := lines + flagLines;
      }
      assert lines == before + Piece(FlagList);
      page := page + Piece(FlagList);
      before := lines;
      if |commands| != 0 {
        lines := lines + ["Use \"" + binary + " help " + command + xcmd + "\" for more information about that command."];
      }
      assert lines == before + Piece(Hint);
      page := page + Piece(Hint);
      before := lines;
      if foot.Some? {
        lines := lines + [foot.value];
      }
      assert lines == before + Piece(Footer);
      page := page + Piece(Footer);
      assert lines == page;
    }
  }

  /** A section is kept by Filter exactly when it is in the list and the page has it. */
  lemma {:induction false} FilterMembers(h: Helper, ss: seq<Section>, x: Section)
    ensures x in h.Filter(ss) <==> x in ss && h.Emits(x)
  {
    if ss != [] {
      FilterMembers(h, ss[..|ss| - 1], x);
      assert ss == ss[..|ss| - 1] + [ss[|ss| - 1]];
    }
  }

  /** Filter keeps the relative order of what it keeps. */
  lemma {:induction false} FilterOrdered(h: Helper, ss: seq<Section>)
    requires forall i, j :: 0 <= i < j < |ss| ==> Rank(ss[i]) < Rank(ss[j])
    ensures forall i, j :: 0 <= i < j < |h.Filter(ss)| ==> Rank(h.Filter(ss)[i]) < Rank(h.Filter(ss)[j])
  {
    if ss != [] {
      var init := ss[..|ss| - 1];
      var last := ss[|ss| - 1];
      FilterOrdered(h, init);
      if h.Emits(last) {
        var f := h.Filter(init);
        forall i | 0 <= i < |f| ensures Rank(f[i]) < Rank(last) {
          FilterMembers(h, init, f[i]);
          var k :| 0 <= k < |init| && init[k] == f[i];
        }
      }
    }
  }

  /** Which sections a page has: exactly those its node calls for (see Emits), each at most
      once and always in the same order. */
  lemma SectionsEmitted(h: Helper)
    ensures forall x :: x in h.Sections() <==> h.Emits(x)
    ensures forall i, j :: 0 <= i < j < |h.Sections()| ==> Rank(h.Sections()[i]) < Rank(h.Sections()[j])
  {
    forall x ensures x in h.Sections() <==> h.Emits(x) {
      FilterMembers(h, AllSections, x);
      assert x in AllSections by {
        match x
        case LongText => assert AllSections[0] == x;
        case Blank => assert AllSections[1] == x;
        case Usage => assert AllSections[2] == x;
        case CommandList => assert AllSections[3] == x;
        case FlagList => assert AllSections[4] == x;
        case Hint => assert AllSections[5] == x;
        case Footer => assert AllSections[6] == x;
      }
    }
    FilterOrdered(h, AllSections);
  }

  /** The lines of a page are its sections rendered one after the other. */
  lemma LinesFollowSections(h: Helper)
    ensures h.Lines() == h.RenderAll(h.Sections())
  {
    var p1 := [LongText];
    var p2 := p1 + [Blank];
    var p3 := p2 + [Usage];
    var p4 := p3 + [CommandList];
    var p5 := p4 + [FlagList];
    var p6 := p5 + [Hint];
    var p7 := p6 + [Footer];
    assert p7 == AllSections;
    FirstPiece(h, LongText);
    WriteSection(h, p1, Blank);
    WriteSection(h, p2, Usage);
    WriteSection(h, p3, CommandList);
    WriteSection(h, p4, FlagList);
    WriteSection(h, p5, Hint);
    WriteSection(h, p6, Footer);
  }

  /** Writing section s (or skipping it when the page does not have it) after `done`. */
  lemma WriteSection(h: Helper, done: seq<Section>, s: Section)
    ensures h.RenderAll(h.Filter(done + [s])) == h.RenderAll(h.Filter(done)) + h.Piece(s)
  {
    assert (done + [s])[..|done|] == done;
    var f := h.Filter(done);
    if h.Emits(s) {
      assert h.Filter(done + [s]) == f + [s];
      assert (f + [s])[..|f|] == f;
      assert h.RenderAll(f + [s]) == h.RenderAll(f) + h.Render(s);
    } else {
      assert h.Filter(done + [s]) == f + [];
      assert f + [] == f;
      assert h.RenderAll(f) + [] == h.RenderAll(f);
    }
  }

  /** The page of a single section is its piece. */
  lemma FirstPiece(h: Helper, s: Section)
    ensures h.RenderAll(h.Filter([s])) == h.Piece(s)
  {
    WriteSection(h, [], s);
    assert [] + [s] == [s];
  }


  /** In particular: the usage line and the flags block appear exactly for a usable node, the
      blank line after the Long text exactly when there is a Long text and the node is usable,
      and the command list and the hint exactly when the node has children. */
  lemma UsageAndFlagsIffUsable(h: Helper)
    ensures Usage in h.Sections() <==> h.usable
    ensures FlagList in h.Sections() <==> h.usable
    ensures Blank in h.Sections() <==> h.long.Some? && h.usable
    ensures Hint in h.Sections() <==> |h.commands| != 0
    ensures CommandList in h.Sections() <==> |h.commands| != 0
  {
    SectionsEmitted(h);
  }

  /** The usage line reads `Usage:  <bin> <command> [flags] [arguments]` at the root; below it,
      the space-joined breadcrumb, followed by " <command>" only when the node has children.
      The hint line names the same command text, both at the root and below it. */
  lemma UsageText(h: Helper)
    ensures h.trail == [] ==>
      h.UsageLine() == "Usage:  " + h.binary + " " + "<command>" + " [flags] [arguments]" &&
      h.HintLine() == "Use \"" + h.binary + " help " + "<command>" + "\" for more information about that command."
    ensures Join(h.trail, " ") != "" && |h.commands| != 0 ==>
      h.UsageLine() == "Usage:  " + h.binary + " " + Join(h.trail, " ") + " <command>" + " [flags] [arguments]"
    ensures Join(h.trail, " ") != "" && |h.commands| == 0 ==>
      h.UsageLine() == "Usage:  " + h.binary + " " + Join(h.trail, " ") + " [flags] [arguments]"
    ensures Join(h.trail, " ") != "" && |h.commands| != 0 ==>
      h.HintLine() == "Use \"" + h.binary + " help " + Join(h.trail, " ") + " <command>" + "\" for more information about that command."
    ensures Join(h.trail, " ") != "" && |h.commands| == 0 ==>
      h.HintLine() == "Use \"" + h.binary + " help " + Join(h.trail, " ") + "\" for more information about that command."
  {
    if h.trail == [] {
      var u := "Usage:  " + h.binary + " " + "<command>";
      assert h.CommandText() == "<command>" && h.Xcmd() == "";
      assert u + "" == u;
      var v := "Use \"" + h.binary + " help " + "<command>";
      assert v + "" == v;
    } else if Join(h.trail, " ") != "" && |h.commands| == 0 {
      var u := "Usage:  " + h.binary + " " + Join(h.trail, " ");
      assert u + "" == u;
      var v := "Use \"" + h.binary + " help " + Join(h.trail, " ");
      assert v + "" == v;
    }
  }

  /** "Missing implementation" is reported exactly for a node that is neither usable nor has a
      Long or Foot text, and no later rule replaces it. */
  lemma MissingImplementation(h: Helper)
    ensures var missing := Some(Plain("command or topic '" + Join(h.trail, " ") + "' is missing implementation"));
      (h.Result() == missing <==> !h.usable && h.long.None? && h.foot.None?)
  {
    var na := NonFlagPrefix(h.args);
    if h.Failure().None? && !h.runnable && |na| > |h.trail| {
      var unknown := "unknown command: '" + Join([h.binary] + na[..|h.trail| + 1], " ") + "'";
      var topic := "command or topic '" + Join(h.trail, " ") + "' is missing implementation";
      assert unknown[0] == 'u' && topic[0] == 'c';
    }
  }

  /** The deferred rewrite: a help request that would succeed for a node that is not runnable
      fails with "unknown command" exactly when more non-flag arguments were given than the
      breadcrumb has; the error names the binary and the first |trail| + 1 of those arguments. */
  lemma UnknownCommandRewrite(h: Helper)
    ensures var na := NonFlagPrefix(h.args);
      (h.Result() != h.Failure() <==> h.Failure().None? && !h.runnable && |na| > |h.trail|) &&
      (h.Result() != h.Failure() ==>
        |na| > |h.trail| &&
        Message(h.Result().value) == "unknown command: '" + Join([h.binary] + na[..|h.trail| + 1], " ") + "'")
  {
  }

  /** A runnable node's help never fails: surplus arguments are its own arguments. */
  lemma RunnableHelpSucceeds(h: Helper)
    requires h.runnable && h.usable
    ensures h.Result() == None
  {
  }
}
