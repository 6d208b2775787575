/** Command resolution and tree validation of clino.go: the leading path tokens, the optional
    `help` token, looking a name up among siblings, walking the tree, and the duplicate-name check. */
module Resolve {
  import opened Wrappers
  import opened Commands
  import opened Exit

  /** The longest prefix of `args` in which no token starts with '-'. */
  function NonFlagPrefix(args: seq<string>): (out: seq<string>)
    ensures out <= args
    ensures forall i :: 0 <= i < |out| ==> !HasFlagPrefix(out[i])
    ensures |out| == |args| || HasFlagPrefix(args[|out|])
  {
    if args == [] || HasFlagPrefix(args[0]) then []
    else [args[0]] + NonFlagPrefix(args[1..])
  }

  /** The three properties of NonFlagPrefix determine it: a loop that establishes them
      computes exactly NonFlagPrefix. */
  lemma {:induction false} NonFlagPrefixUnique(args: seq<string>, out: seq<string>)
    requires out <= args
    requires forall i :: 0 <= i < |out| ==> !HasFlagPrefix(out[i])
    requires |out| == |args| || HasFlagPrefix(args[|out|])
    ensures out == NonFlagPrefix(args)
  {
    if out != [] {
      NonFlagPrefixUnique(args[1..], out[1..]);
      assert out == [args[0]] + out[1..];
    }
  }

  /** getCommandArgs: collect tokens until the first one that starts with '-'. */
  method GetCommandArgs(args: seq<string>) returns (out: seq<string>)
    ensures out == NonFlagPrefix(args)
  {
    out := [];
    if |args| == 0 {
      return;
    }
    var i := 0;
    while i < |args|
      invariant 0 <= i <= |args|
      invariant out == args[..i]
      invariant forall k :: 0 <= k < i ==> !HasFlagPrefix(args[k])
    {
      if HasFlagPrefix(args[i]) {  // stop on first flag
        NonFlagPrefixUnique(args, out);
        return;
      }
      out := out + [args[i]];
      i := i + 1;
    }
    NonFlagPrefixUnique(args, out);
  }

  /** skipHelpCommand: one leading "help" is dropped; any other list is returned unchanged. */
  function SkipHelpCommand(args: seq<string>): (r: seq<string>)
    ensures |args| != 0 && args[0] == "help" ==> ["help"] + r == args
    ensures !(|args| != 0 && args[0] == "help") ==> r == args
  {
    if |args| != 0 && args[0] == "help" then args[1..] else args
  }

  /** Index i holds the first command of the list named `name`. */
  predicate FirstNamed(commands: seq<Command>, name: string, i: int)
  {
    0 <= i < |commands| && commands[i].name == name &&
    forall j :: 0 <= j < i ==> commands[j].name != name
  }

  /** The first command of the list whose name is exactly `name` (getCommand's result). */
  function FindCommand(commands: seq<Command>, name: string): Option<Command>
  {
    if commands == [] then None
    else if commands[0].name == name then Some(commands[0])
    else FindCommand(commands[1..], name)
  }

  /** A lookup finds nothing exactly when no command of the list carries the name. */
  lemma {:induction false} FindCommandNone(commands: seq<Command>, name: string)
    ensures FindCommand(commands, name).None? <==> forall i :: 0 <= i < |commands| ==> commands[i].name != name
  {
    if commands != [] && commands[0].name != name {
      FindCommandNone(commands[1..], name);
      assert forall i :: 1 <= i < |commands| ==> commands[i] == commands[1..][i - 1];
    }
  }

  /** A lookup finds the first command of the list that carries the name. */
  lemma {:induction false} FindFirstNamed(commands: seq<Command>, name: string, i: nat)
    requires FirstNamed(commands, name, i)
    ensures FindCommand(commands, name) == Some(commands[i])
  {
    if i > 0 {
      assert commands[0].name != name;
      assert FirstNamed(commands[1..], name, i - 1);
      FindFirstNamed(commands[1..], name, i - 1);
    }
  }

  /** getCommand: scan the list in order and return the first exact name match. */
  method GetCommand(commands: seq<Command>, name: string) returns (cmd: Option<Command>)
    ensures cmd == FindCommand(commands, name)
  {
    for i := 0 to |commands|
      invariant forall j :: 0 <= j < i ==> commands[j].name != name
    {
      if name == commands[i].name {
        FindFirstNamed(commands, name, i);
        return Some(commands[i]);
      }
    }
    FindCommandNone(commands, name);
    return None;
  }

  /** The node reached by following `path` exactly from `cmd`, if every name on it matches. */
  function Follow(cmd: Command, path: seq<string>): Option<Command>
    decreases path
  {
    if path == [] then Some(cmd)
    else match FindCommand(GetSubcommands(cmd), path[0])
      case None => None
      case Some(c) => Follow(c, path[1..])
  }

  /** walkCommand's result: descend while names match, and return the node reached with the
      breadcrumb of matched names (the root itself is not part of the breadcrumb). */
  function Walk(cmd: Command, names: seq<string>): (res: (Command, seq<string>))
    ensures res.1 <= names
    decreases names
  {
    if names == [] then (cmd, [])
    else match FindCommand(GetSubcommands(cmd), names[0])
      case None => (cmd, [])
      case Some(c) =>
        var (d, t) := Walk(c, names[1..]);
        (d, [names[0]] + t)
  }

  /** The breadcrumb leads from `cmd` to the returned node, and the walk stops only at the end
      of the names or at the first name that no child of the node reached has. */
  lemma {:induction false} WalkStopsAtFirstUnmatched(cmd: Command, names: seq<string>)
    ensures var (d, t) := Walk(cmd, names);
      Follow(cmd, t) == Some(d) &&
      (|t| < |names| ==> FindCommand(GetSubcommands(d), names[|t|]).None?)
    decreases names
  {
    if names != [] {
      match FindCommand(GetSubcommands(cmd), names[0])
      case None =>
      case Some(c) =>
        WalkStopsAtFirstUnmatched(c, names[1..]);
        var t := Walk(c, names[1..]).1;
        assert ([names[0]] + t)[1..] == t;
        assert |t| < |names| - 1 ==> names[1..][|t|] == names[|t| + 1];
    }
  }

  /** Every step of a path that can be followed names a child of the node reached before it. */
  lemma {:induction false} FollowSteps(cmd: Command, path: seq<string>, i: nat)
    requires Follow(cmd, path).Some? && i < |path|
    ensures Follow(cmd, path[..i]).Some?
    ensures FindCommand(GetSubcommands(Follow(cmd, path[..i]).value), path[i]).Some?
    ensures Follow(cmd, path[..i + 1]) == FindCommand(GetSubcommands(Follow(cmd, path[..i]).value), path[i])
    decreases path
  {
    var c := FindCommand(GetSubcommands(cmd), path[0]).value;
    if i == 0 {
      FollowFirst(cmd, path[..1]);
      assert path[..1][1..] == [];
    } else {
      FollowSteps(c, path[1..], i - 1);
      FollowFirst(cmd, path[..i]);
      FollowFirst(cmd, path[..i + 1]);
      assert path[..i][1..] == path[1..][..i - 1];
      assert path[..i + 1][1..] == path[1..][..i];
    }
  }

  /** Following a non-empty path goes through the child its first name looks up. */
  lemma FollowFirst(cmd: Command, path: seq<string>)
    requires path != []
    ensures Follow(cmd, path) ==
      match FindCommand(GetSubcommands(cmd), path[0])
      case None => None
      case Some(c) => Follow(c, path[1..])
  {
  }

  /** The walk's breadcrumb: each name in it is a child of the node reached by the names before it,
      and an empty breadcrumb leaves the walk at the starting node. */
  lemma WalkTrail(cmd: Command, names: seq<string>)
    ensures var (d, t) := Walk(cmd, names);
      (t == [] ==> d == cmd) &&
      forall i :: 0 <= i < |t| ==>
        Follow(cmd, t[..i]).Some? && FindCommand(GetSubcommands(Follow(cmd, t[..i]).value), t[i]).Some?
  {
    var (d, t) := Walk(cmd, names);
    WalkStopsAtFirstUnmatched(cmd, names);
    forall i | 0 <= i < |t|
      ensures Follow(cmd, t[..i]).Some? && FindCommand(GetSubcommands(Follow(cmd, t[..i]).value), t[i]).Some?
    {
      FollowSteps(cmd, t, i);
    }
  }

  /** A path of k valid command names is consumed whole: the breadcrumb is the path itself,
      and only such a path is. */
  lemma {:induction false} WalkConsumesValidPath(cmd: Command, names: seq<string>)
    ensures Walk(cmd, names).1 == names <==> Follow(cmd, names).Some?
    decreases names
  {
    if names != [] {
      match FindCommand(GetSubcommands(cmd), names[0])
      case None =>
        assert Walk(cmd, names).1 == [];
        assert Follow(cmd, names) == None;
      case Some(c) =>
        var t := Walk(c, names[1..]).1;
        assert Walk(cmd, names).1 == [names[0]] + t;
        assert Follow(cmd, names) == Follow(c, names[1..]);
        WalkConsumesValidPath(c, names[1..]);
        assert [names[0]] + t == names <==> t == names[1..] by {
          if [names[0]] + t == names {
            assert t == ([names[0]] + t)[1..];
          }
        }
    }
  }

  /** loadCommand: the empty argument list goes straight to the root; otherwise the leading
      non-flag tokens are walked. Both give the walk of the leading non-flag tokens. */
  method LoadCommand(root: Command, args: seq<string>) returns (cmd: Command, trail: seq<string>)
    ensures (cmd, trail) == Walk(root, NonFlagPrefix(args))
    ensures trail <= args
  {
    var commands := GetSubcommands(root);
    if |args| == 0 {
      return root, [];
    }
    var cmdArgs := GetCommandArgs(args);
    cmd, trail := WalkCommand(root, commands, cmdArgs);
  }

  /** walkCommand: starting at the root with the root's children, follow the names one at a time,
      stopping at the first one no child of the current node has. */
  method WalkCommand(root: Command, commands: seq<Command>, names: seq<string>)
    returns (cmd: Command, trail: seq<string>)
    requires commands == GetSubcommands(root)
    ensures (cmd, trail) == Walk(root, names)
  {
    cmd := root;
    var current := commands;
    trail := [];
    assert names[0..] == names;
    ghost var w0 := Walk(root, names);
    assert [] + w0.1 == w0.1;
    for i := 0 to |names|
      invariant current == GetSubcommands(cmd)
      invariant Walk(root, names) == (Walk(cmd, names[i..]).0, trail + Walk(cmd, names[i..]).1)
    {
      var c := GetCommand(current, names[i]);
      WalkStep(cmd, names, i);
      if c.None? {
        assert trail + [] == trail;
        return;
      }
      ghost var rest := Walk(c.value, names[i + 1..]);
      assert trail + ([names[i]] + rest.1) == (trail + [names[i]]) + rest.1;
      trail := trail + [names[i]];
      cmd := c.value;
      current := GetSubcommands(cmd);
    }
    assert names[|names|..] == [];
    assert trail + [] == trail;
  }

  /** One step of the walk over names[i..]. */
  lemma WalkStep(cmd: Command, names: seq<string>, i: nat)
    requires i < |names|
    ensures var f := FindCommand(GetSubcommands(cmd), names[i]);
      Walk(cmd, names[i..]) ==
        if f.None? then (cmd, [])
        else (Walk(f.value, names[i + 1..]).0, [names[i]] + Walk(f.value, names[i + 1..]).1)
  {
    assert names[i..][1..] == names[i + 1..];
  }

  /** commandNotFound: the "unknown command" error naming the binary and the given path. */
  function CommandNotFound(binary: string, trail: seq<string>): (e: Error)
    ensures e.Plain? && Message(e) == "unknown command: '" + Join([binary] + trail, " ") + "'"
  {
    Plain("unknown command: '" + Join([binary] + trail, " ") + "'")
  }

  // ---- the duplicate-name check ----

  /** No sibling group anywhere below `cmd` repeats a name. */
  predicate UniqueSiblings(cmd: Command)
    decreases cmd
  {
    var cs := GetSubcommands(cmd);
    (forall i, j :: 0 <= i < j < |cs| ==> cs[i].name != cs[j].name) &&
    (forall i :: 0 <= i < |cs| ==> UniqueSiblings(cs[i]))
  }

  /** Two children of `cmd` carry `name`. */
  predicate DuplicatedChild(cmd: Command, name: string)
  {
    var cs := GetSubcommands(cmd);
    exists i, j :: 0 <= i < j < |cs| && cs[i].name == name && cs[j].name == name
  }

  /** The path reported by checkDuplicated(cmd, trail) when it panics, or None when it returns:
      children are taken in order, each one's name is checked against its earlier siblings and
      then its own subtree is checked before the next sibling is looked at. */
  function FirstDuplicate(cmd: Command, trail: seq<string>): Option<seq<string>>
    decreases cmd, |GetSubcommands(cmd)| + 1
  {
    if cmd.sub.NotParent? then None
    else ScanSiblings(cmd, 0, {}, trail)
  }

  /** The loop of checkDuplicated over the children of `parent` from index i on,
      `seen` holding the names met so far. */
  function ScanSiblings(parent: Command, i: nat, seen: set<string>, trail: seq<string>): Option<seq<string>>
    requires i <= |GetSubcommands(parent)|
    decreases parent, |GetSubcommands(parent)| - i
  {
    var cs := GetSubcommands(parent);
    if i == |cs| then None
    else if cs[i].name in seen then Some(trail + [cs[i].name])
    else match FirstDuplicate(cs[i], trail + [cs[i].name])
      case Some(p) => Some(p)
      case None => ScanSiblings(parent, i + 1, seen + {cs[i].name}, trail)
  }

  /** The names of a list of commands. */
  function Names(cs: seq<Command>): set<string>
  {
    set c | c in cs :: c.name
  }

  /** The names of the first i + 1 commands are those of the first i and the name of command i. */
  lemma NamesSnoc(cs: seq<Command>, i: nat)
    requires i < |cs|
    ensures Names(cs[..i + 1]) == Names(cs[..i]) + {cs[i].name}
  {
    assert cs[..i + 1] == cs[..i] + [cs[i]];
  }

  /** No name among the commands from index i on repeats an earlier one. */
  predicate DistinctFrom(cs: seq<Command>, i: nat)
  {
    forall a, b :: 0 <= a < b < |cs| && i <= b ==> cs[a].name != cs[b].name
  }

  /** Every subtree from index i on is free of repeated sibling names. */
  predicate SoundFrom(cs: seq<Command>, i: nat)
  {
    forall a :: i <= a < |cs| ==> UniqueSiblings(cs[a])
  }

  /** The scan from i on finds nothing exactly when the remaining names are new and pairwise distinct
      and every remaining subtree is free of duplicates. */
  lemma {:induction false} ScanSiblingsNone(parent: Command, i: nat, trail: seq<string>)
    requires i <= |GetSubcommands(parent)|
    requires forall a, b :: 0 <= a < b < i ==> GetSubcommands(parent)[a].name != GetSubcommands(parent)[b].name
    ensures var cs := GetSubcommands(parent);
      ScanSiblings(parent, i, Names(cs[..i]), trail).None? <==> DistinctFrom(cs, i) && SoundFrom(cs, i)
    decreases parent, |GetSubcommands(parent)| - i
  {
    var cs := GetSubcommands(parent);
    if i < |cs| {
      if cs[i].name in Names(cs[..i]) {
        var a :| a in cs[..i] && a.name == cs[i].name;
        var k :| 0 <= k < i && cs[..i][k] == a;
        assert cs[k].name == cs[i].name;
      } else {
        NewNameDiffers(cs, i);
        FirstDuplicateNone(cs[i], trail + [cs[i].name]);
        ScanStep(parent, i, trail);
        ScanSiblingsNone(parent, i + 1, trail);
      }
    }
  }

  /** A name not among the first i names differs from each of them. */
  lemma NewNameDiffers(cs: seq<Command>, i: nat)
    requires i < |cs| && cs[i].name !in Names(cs[..i])
    ensures forall a :: 0 <= a < i ==> cs[a].name != cs[i].name
  {
    forall a | 0 <= a < i
      ensures cs[a].name != cs[i].name
    {
      assert cs[a] in cs[..i];
    }
  }

  /** One step of the scan past a new name: nothing is found from i on exactly when the child at i
      is free of duplicates and nothing is found from i + 1 on; the conditions split the same way. */
  lemma ScanStep(parent: Command, i: nat, trail: seq<string>)
    requires i < |GetSubcommands(parent)|
    requires GetSubcommands(parent)[i].name !in Names(GetSubcommands(parent)[..i])
    requires forall a :: 0 <= a < i ==> GetSubcommands(parent)[a].name != GetSubcommands(parent)[i].name
    requires var c := GetSubcommands(parent)[i];
      FirstDuplicate(c, trail + [c.name]).None? <==> UniqueSiblings(c)
    ensures var cs := GetSubcommands(parent);
      (ScanSiblings(parent, i, Names(cs[..i]), trail).None? <==>
        UniqueSiblings(cs[i]) && ScanSiblings(parent, i + 1, Names(cs[..i + 1]), trail).None?) &&
      (DistinctFrom(cs, i) <==> DistinctFrom(cs, i + 1)) &&
      (SoundFrom(cs, i) <==> UniqueSiblings(cs[i]) && SoundFrom(cs, i + 1))
  {
    NamesSnoc(GetSubcommands(parent), i);
  }

  /** checkDuplicated returns without panicking iff no sibling group anywhere in the tree repeats a name. */
  lemma {:induction false} FirstDuplicateNone(cmd: Command, trail: seq<string>)
    ensures FirstDuplicate(cmd, trail).None? <==> UniqueSiblings(cmd)
    decreases cmd, |GetSubcommands(cmd)| + 1
  {
    if cmd.sub.Parent? {
      assert GetSubcommands(cmd)[..0] == [];
      assert Names([]) == {};
      ScanSiblingsNone(cmd, 0, trail);
    }
  }

  /** What a panic reported by checkDuplicated for `cmd` promises about the reported path `p`. */
  predicate ReportsDuplicate(cmd: Command, trail: seq<string>, p: seq<string>)
  {
    |p| > |trail| && p[..|trail|] == trail &&
    Follow(cmd, p[|trail|..|p| - 1]).Some? &&
    DuplicatedChild(Follow(cmd, p[|trail|..|p| - 1]).value, p[|p| - 1])
  }

  /** The path a panic of the scan reports: it extends `trail` by a path that leads from `parent`
      to a node two of whose children carry its last name. */
  lemma {:induction false} ScanSiblingsPath(parent: Command, i: nat, trail: seq<string>)
    requires i <= |GetSubcommands(parent)|
    requires ScanSiblings(parent, i, Names(GetSubcommands(parent)[..i]), trail).Some?
    ensures ReportsDuplicate(parent, trail, ScanSiblings(parent, i, Names(GetSubcommands(parent)[..i]), trail).value)
    decreases parent, |GetSubcommands(parent)| - i
  {
    var cs := GetSubcommands(parent);
    var t := trail + [cs[i].name];
    if cs[i].name in Names(cs[..i]) {
      SiblingRepeatsName(parent, i, trail);
    } else if FirstDuplicate(cs[i], t).Some? {
      FirstDuplicatePath(cs[i], t);
      DescendantRepeatsName(parent, i, trail);
    } else {
      NamesSnoc(cs, i);
      ScanSiblingsPath(parent, i + 1, trail);
    }
  }

  /** A child repeating an earlier sibling's name is reported with the path trail + [its name]. */
  lemma SiblingRepeatsName(parent: Command, i: nat, trail: seq<string>)
    requires i < |GetSubcommands(parent)|
    requires GetSubcommands(parent)[i].name in Names(GetSubcommands(parent)[..i])
    ensures ReportsDuplicate(parent, trail, trail + [GetSubcommands(parent)[i].name])
  {
    var cs := GetSubcommands(parent);
    var p := trail + [cs[i].name];
    var a :| a in cs[..i] && a.name == cs[i].name;
    var k :| 0 <= k < i && cs[..i][k] == a;
    assert p[|trail|..|p| - 1] == [];
    assert p[..|trail|] == trail;
    assert cs[k].name == cs[i].name;
  }

  /** A duplicate reported inside child i is reported for `parent` with the same path. */
  lemma DescendantRepeatsName(parent: Command, i: nat, trail: seq<string>)
    requires i < |GetSubcommands(parent)|
    requires GetSubcommands(parent)[i].name !in Names(GetSubcommands(parent)[..i])
    requires var c := GetSubcommands(parent)[i];
      FirstDuplicate(c, trail + [c.name]).Some? &&
      ReportsDuplicate(c, trail + [c.name], FirstDuplicate(c, trail + [c.name]).value)
    ensures var c := GetSubcommands(parent)[i];
      ReportsDuplicate(parent, trail, FirstDuplicate(c, trail + [c.name]).value)
  {
    var c := GetSubcommands(parent)[i];
    var t := trail + [c.name];
    var q := FirstDuplicate(c, t).value;
    var path := q[|t|..|q| - 1];
    PrefixOfExtended(q, trail, c.name);
    FindFirstSibling(GetSubcommands(parent), i);
    FollowChild(parent, c, path);
    assert Follow(parent, q[|trail|..|q| - 1]) == Follow(c, path);
  }

  /** A list that starts with trail + [n] starts with trail, followed by n. */
  lemma PrefixOfExtended(q: seq<string>, trail: seq<string>, n: string)
    requires |q| > |trail| + 1 && q[..|trail| + 1] == trail + [n]
    ensures q[..|trail|] == trail
    ensures q[|trail|..|q| - 1] == [n] + q[|trail| + 1..|q| - 1]
  {
    assert q[..|trail|] == q[..|trail| + 1][..|trail|];
  }

  /** Following a path through the child a lookup finds is following the rest from that child. */
  lemma FollowChild(parent: Command, c: Command, path: seq<string>)
    requires FindCommand(GetSubcommands(parent), c.name) == Some(c)
    ensures Follow(parent, [c.name] + path) == Follow(c, path)
  {
    assert ([c.name] + path)[1..] == path;
  }

  /** A child whose name no earlier sibling carries is the one a lookup of that name finds. */
  lemma FindFirstSibling(cs: seq<Command>, i: nat)
    requires i < |cs| && cs[i].name !in Names(cs[..i])
    ensures FindCommand(cs, cs[i].name) == Some(cs[i])
  {
    forall j | 0 <= j < i
      ensures cs[j].name != cs[i].name
    {
      assert cs[j] in cs[..i];
    }
    FindFirstNamed(cs, cs[i].name, i);
  }

  /** When checkDuplicated panics, the reported path starts with the trail it was given and
      continues along existing commands to a node whose children repeat the path's last name. */
  lemma {:induction false} FirstDuplicatePath(cmd: Command, trail: seq<string>)
    requires FirstDuplicate(cmd, trail).Some?
    ensures ReportsDuplicate(cmd, trail, FirstDuplicate(cmd, trail).value)
    decreases cmd, |GetSubcommands(cmd)| + 1
  {
    assert GetSubcommands(cmd)[..0] == [];
    assert Names([]) == {};
    ScanSiblingsPath(cmd, 0, trail);
  }

  /** The panic message of checkDuplicated for a reported path. */
  function DuplicateMessage(path: seq<string>): (msg: string)
    ensures |msg| == 38 + |Join(path, " ")|
    ensures msg[..37] == "command implemented multiple times: '" && msg[|msg| - 1] == '\''
    ensures msg[37..|msg| - 1] == Join(path, " ")
  {
    "command implemented multiple times: '" + Join(path, " ") + "'"
  }

  /** checkDuplicated: for each child in order, panic if its name was already seen among its
      siblings, otherwise record it and check the child's own subtree. The panic is returned
      as its message; None means the call returned normally. */
  method CheckDuplicated(cmd: Command, trail: seq<string>) returns (panicked: Option<string>)
    ensures panicked.None? <==> FirstDuplicate(cmd, trail).None?
    ensures panicked.Some? ==> panicked.value == DuplicateMessage(FirstDuplicate(cmd, trail).value)
    decreases cmd
  {
    panicked := None;
    if cmd.sub.NotParent? {
      return;
    }
    var cs := cmd.sub.commands;
    var m: set<string> := {};
    for i := 0 to |cs|
      invariant m == Names(cs[..i])
      invariant FirstDuplicate(cmd, trail) == ScanSiblings(cmd, i, m, trail)
    {
      var c := cs[i];
      var name, cmdtrail := c.name, trail + [c.name];
      if name in m {
        return Some(DuplicateMessage(cmdtrail));
      }
      NamesSnoc(cs, i);
      m := m + {name};
      var inner := CheckDuplicated(c, cmdtrail);
      if inner.Some? {
        return inner;
      }
    }
    assert cs[..|cs|] == cs;
  }
}
